/** What every step of fork, exit and wait keeps. */
module ProcSafety {
  import opened ProcMachine

  predicate HoldsWait(pl: Place) {
    pl.ForkHold? || pl.Reparent? || pl.InitWake? || pl.ExitWake? || pl.ExitUnlock? || pl.Scan? || pl.Decided?
    || pl.Doze?
  }

  predicate HoldsSelf(pl: Place) {
    pl.Doze? || pl.Nod? || pl.Woken? || pl.ExitUnlock? || pl.ExitSched?
  }

  predicate Forking(pl: Place) {
    pl.ForkAlloc? || pl.ForkMade? || pl.ForkHold? || pl.ForkDone?
  }

  predicate Exiting(pl: Place) {
    pl.Reparent? || pl.InitWake? || pl.ExitWake?
  }

  predicate Exited(pl: Place) {
    pl.ExitUnlock? || pl.ExitSched? || pl.Dead?
  }

  predicate Alive(x: Proc) {
    x.status == Runnable || x.status == Running || x.status == Sleeping
  }

  /** In wait and asleep, or about to be with wait_lock already given up. */
  predicate Drowsy(x: Proc) {
    x.place.Nod? || (x.place.Asleep? && x.status == Sleeping)
  }

  /** How a slot's status goes with its place. */
  predicate Consistent(x: Proc, p: nat) {
    && (x.status == Unused ==> x.pid == 0 && x.parent == NONE && x.place == User && x.lock == NONE)
    && (x.status == Used ==> x.place == User)
    && (x.status == Runnable ==> Lockless(x.place) || x.place.Asleep? || x.place.Elsewhere?)
    && (x.status == Running ==> !x.place.Asleep? && !x.place.Elsewhere?)
    && (x.status == Sleeping ==> (x.place.Asleep? && x.chan == Chan(p)) || (x.place.Elsewhere? && x.chan > NPROC))
    && (x.status == Zombie <==> Exited(x.place))
    && (x.lock == p <==> HoldsSelf(x.place))
    && (p == INIT ==> Alive(x) && x.parent == NONE && !Exiting(x.place))
    && (p != INIT && (Alive(x) || x.status == Zombie) ==> x.parent < NPROC)
    && x.parent <= NONE && x.parent != p && x.lock <= NONE
  }

  /** Locks are held by the process whose place says so. */
  predicate Locked(s: State, p: nat)
    requires Wf(s) && p < NPROC
  {
    && (HoldsWait(s.procs[p].place) <==> s.waitLock == p)
    && (s.procs[p].lock < NPROC && s.procs[p].lock != p ==> s.procs[s.procs[p].lock].place == ForkAlloc(p))
  }

  /** A process in fork has made the child it is working on. */
  predicate Makes(s: State, p: nat)
    requires Wf(s) && p < NPROC
  {
    Forking(s.procs[p].place) ==>
      var np := s.procs[p].place.np;
      && np < NPROC && np != p && s.procs[np].status == Used && s.procs[np].maker == p
      && s.procs[np].parent == (if s.procs[p].place.ForkDone? then p else NONE)
      && (s.procs[p].place.ForkAlloc? ==> s.procs[np].lock == p)
  }

  /** A parent is alive. */
  predicate Parented(s: State, q: nat)
    requires Wf(s) && q < NPROC
  {
    s.procs[q].parent < NPROC ==> Alive(s.procs[s.procs[q].parent])
  }

  /** p is giving child q to init and init has not been woken yet. */
  predicate Handing(s: State, q: nat)
    requires Wf(s)
  {
    s.waitLock < NPROC && s.procs[s.waitLock].place.InitWake?
    && s.procs[s.waitLock].place.i == q && s.procs[s.waitLock].place.j <= INIT
  }

  /** What p, whatever it is doing, may rely on about slot q. */
  predicate Between(s: State, p: nat, q: nat)
    requires Wf(s) && p < NPROC && q < NPROC
  {
    var x, y := s.procs[p], s.procs[q];
    && (y.parent == p ==>
          && (x.place.Reparent? ==> q >= x.place.i)
          && (x.place.InitWake? ==> q > x.place.i)
          && !x.place.ExitWake?
          && (x.place.Scan? && q < x.place.i ==> y.status != Zombie && x.place.kids)
          && (x.place.Decided? || x.place.Doze? ==> y.status != Zombie)
          && (Drowsy(x) && y.status == Zombie ==> p == INIT && Handing(s, q)))
    && (x.place.ExitWake? && x.parent == q && q < x.place.j ==> !Drowsy(y))
    && (x.place.InitWake? && q == INIT && INIT < x.place.j ==> !Drowsy(y))
    && (p != q && x.status != Unused && y.status != Unused ==> x.pid != y.pid)
  }

  predicate Numbered(s: State, p: nat)
    requires Wf(s) && p < NPROC
  {
    s.procs[p].status != Unused ==> 0 < s.procs[p].pid < s.nextpid && s.procs[p].pid !in s.reaped
  }

  predicate Slot(s: State, p: nat)
    requires Wf(s) && p < NPROC
  {
    Consistent(s.procs[p], p) && Locked(s, p) && Makes(s, p) && Parented(s, p) && Numbered(s, p)
  }

  ghost predicate Inv(s: State) {
    && Wf(s) && s.nextpid > 0 && (forall n :: n in s.reaped ==> n < s.nextpid)
    && (forall p {:trigger Slot(s, p)} :: 0 <= p < NPROC ==> Slot(s, p))
    && (forall p, q {:trigger Between(s, p, q)} :: 0 <= p < NPROC && 0 <= q < NPROC ==> Between(s, p, q))
  }

  lemma InitialInv()
    ensures Inv(Initial())
  {
  }

  lemma ScheduleSlot(s: State, p: nat, q: nat)
    requires Wf(s) && CanSchedule(s, p) && q < NPROC && Slot(s, p) && Slot(s, q)
    ensures Slot(DoSchedule(s, p), q)
  {
  }

  lemma SchedulePair(s: State, p: nat, a: nat, b: nat)
    requires Wf(s) && CanSchedule(s, p) && a < NPROC && b < NPROC
    requires Slot(s, p) && Slot(s, a) && Slot(s, b) && Between(s, a, b)
    ensures Between(DoSchedule(s, p), a, b)
  {
  }

  lemma PreemptSlot(s: State, p: nat, q: nat)
    requires Wf(s) && CanPreempt(s, p) && q < NPROC && Slot(s, p) && Slot(s, q)
    ensures Slot(DoPreempt(s, p), q)
  {
  }

  lemma PreemptPair(s: State, p: nat, a: nat, b: nat)
    requires Wf(s) && CanPreempt(s, p) && a < NPROC && b < NPROC
    requires Slot(s, p) && Slot(s, a) && Slot(s, b) && Between(s, a, b)
    ensures Between(DoPreempt(s, p), a, b)
  {
  }

  lemma SleepOnSlot(s: State, p: nat, c: nat, q: nat)
    requires Wf(s) && CanSleepOn(s, p, c) && q < NPROC && Slot(s, p) && Slot(s, q)
    ensures Slot(DoSleepOn(s, p, c), q)
  {
  }

  lemma SleepOnPair(s: State, p: nat, c: nat, a: nat, b: nat)
    requires Wf(s) && CanSleepOn(s, p, c) && a < NPROC && b < NPROC
    requires Slot(s, p) && Slot(s, a) && Slot(s, b) && Between(s, a, b)
    ensures Between(DoSleepOn(s, p, c), a, b)
  {
  }

  lemma WakeOtherSlot(s: State, p: nat, q: nat)
    requires Wf(s) && CanWakeOther(s, p) && q < NPROC && Slot(s, p) && Slot(s, q)
    ensures Slot(DoWakeOther(s, p), q)
  {
  }

  lemma WakeOtherPair(s: State, p: nat, a: nat, b: nat)
    requires Wf(s) && CanWakeOther(s, p) && a < NPROC && b < NPROC
    requires Slot(s, p) && Slot(s, a) && Slot(s, b) && Between(s, a, b)
    ensures Between(DoWakeOther(s, p), a, b)
  {
  }

  lemma KillSlot(s: State, p: nat, q: nat)
    requires Wf(s) && CanKill(s, p) && q < NPROC && Slot(s, p) && Slot(s, q)
    ensures Slot(DoKill(s, p), q)
  {
  }

  lemma KillPair(s: State, p: nat, a: nat, b: nat)
    requires Wf(s) && CanKill(s, p) && a < NPROC && b < NPROC
    requires Slot(s, p) && Slot(s, a) && Slot(s, b) && Between(s, a, b)
    ensures Between(DoKill(s, p), a, b)
  {
  }

  lemma AllocSlot(s: State, p: nat, np: nat, q: nat)
    requires Wf(s) && CanAlloc(s, p, np) && q < NPROC && Slot(s, p) && Slot(s, q) && Slot(s, np)
    requires s.nextpid > 0 && s.nextpid !in s.reaped
    ensures Slot(DoAlloc(s, p, np), q)
  {
  }

  lemma AllocPair(s: State, p: nat, np: nat, a: nat, b: nat)
    requires Wf(s) && CanAlloc(s, p, np) && a < NPROC && b < NPROC
    requires Slot(s, p) && Slot(s, a) && Slot(s, b) && Slot(s, np) && Between(s, a, b)
    ensures Between(DoAlloc(s, p, np), a, b)
  {
  }

  lemma ForkFailSlot(s: State, p: nat, q: nat)
    requires Wf(s) && CanForkFail(s, p) && q < NPROC && Slot(s, p) && Slot(s, q) && Slot(s, s.procs[p].place.np)
    ensures Slot(DoForkFail(s, p), q)
  {
  }

  lemma ForkFailPair(s: State, p: nat, a: nat, b: nat)
    requires Wf(s) && CanForkFail(s, p) && a < NPROC && b < NPROC
    requires Slot(s, p) && Slot(s, a) && Slot(s, b) && Slot(s, s.procs[p].place.np) && Between(s, a, b)
    ensures Between(DoForkFail(s, p), a, b)
  {
  }

  lemma ForkUnlockSlot(s: State, p: nat, q: nat)
    requires Wf(s) && CanForkUnlock(s, p) && q < NPROC && Slot(s, p) && Slot(s, q) && Slot(s, s.procs[p].place.np)
    ensures Slot(DoForkUnlock(s, p), q)
  {
    if q == p {
    } else if q == s.procs[p].place.np {
    } else {
    }
  }

  lemma ForkUnlockPair(s: State, p: nat, a: nat, b: nat)
    requires Wf(s) && CanForkUnlock(s, p) && a < NPROC && b < NPROC
    requires Slot(s, p) && Slot(s, a) && Slot(s, b) && Slot(s, s.procs[p].place.np) && Between(s, a, b)
    ensures Between(DoForkUnlock(s, p), a, b)
  {
  }

  lemma ForkLockSlot(s: State, p: nat, q: nat)
    requires Wf(s) && CanForkLock(s, p) && q < NPROC && Slot(s, p) && Slot(s, q)
    ensures Slot(DoForkLock(s, p), q)
  {
  }

  lemma ForkLockPair(s: State, p: nat, a: nat, b: nat)
    requires Wf(s) && CanForkLock(s, p) && a < NPROC && b < NPROC
    requires Slot(s, p) && Slot(s, a) && Slot(s, b) && Between(s, a, b)
    ensures Between(DoForkLock(s, p), a, b)
  {
  }

  lemma SetParentSlot(s: State, p: nat, q: nat)
    requires Wf(s) && CanSetParent(s, p) && q < NPROC && Slot(s, p) && Slot(s, q) && Slot(s, s.procs[p].place.np)
    ensures Slot(DoSetParent(s, p), q)
  {
  }

  lemma SetParentPair(s: State, p: nat, a: nat, b: nat)
    requires Wf(s) && CanSetParent(s, p) && a < NPROC && b < NPROC
    requires Slot(s, p) && Slot(s, a) && Slot(s, b) && Slot(s, s.procs[p].place.np) && Between(s, a, b)
    ensures Between(DoSetParent(s, p), a, b)
  {
  }

  lemma MakeRunnableSlot(s: State, p: nat, q: nat)
    requires Wf(s) && CanMakeRunnable(s, p) && q < NPROC && Slot(s, p) && Slot(s, q) && Slot(s, s.procs[p].place.np)
    ensures Slot(DoMakeRunnable(s, p), q)
  {
  }

  lemma MakeRunnablePair(s: State, p: nat, a: nat, b: nat)
    requires Wf(s) && CanMakeRunnable(s, p) && a < NPROC && b < NPROC
    requires Slot(s, p) && Slot(s, a) && Slot(s, b) && Slot(s, s.procs[p].place.np) && Between(s, a, b)
    ensures Between(DoMakeRunnable(s, p), a, b)
  {
  }

  lemma ExitLockSlot(s: State, p: nat, q: nat)
    requires Wf(s) && CanExitLock(s, p) && q < NPROC && Slot(s, p) && Slot(s, q)
    ensures Slot(DoExitLock(s, p), q)
  {
  }

  lemma ExitLockPair(s: State, p: nat, a: nat, b: nat)
    requires Wf(s) && CanExitLock(s, p) && a < NPROC && b < NPROC
    requires Slot(s, p) && Slot(s, a) && Slot(s, b) && Between(s, a, b)
    ensures Between(DoExitLock(s, p), a, b)
  {
  }

  lemma AdoptSlot(s: State, p: nat, q: nat)
    requires Wf(s) && CanAdopt(s, p) && q < NPROC && Slot(s, p) && Slot(s, q) && Slot(s, s.procs[p].place.i)
    requires Slot(s, INIT)
    ensures Slot(DoAdopt(s, p), q)
  {
  }

  lemma AdoptPair(s: State, p: nat, a: nat, b: nat)
    requires Wf(s) && CanAdopt(s, p) && a < NPROC && b < NPROC
    requires Slot(s, p) && Slot(s, a) && Slot(s, b) && Slot(s, s.procs[p].place.i) && Between(s, a, b)
    ensures Between(DoAdopt(s, p), a, b)
  {
  }

  lemma WakeSlot(s: State, p: nat, q: nat)
    requires Wf(s) && CanWake(s, p) && q < NPROC && Slot(s, p) && Slot(s, q) && Slot(s, s.procs[p].place.j)
    ensures Slot(DoWake(s, p), q)
  {
  }

  lemma WakePair(s: State, p: nat, a: nat, b: nat)
    requires Wf(s) && CanWake(s, p) && a < NPROC && b < NPROC
    requires Slot(s, p) && Slot(s, a) && Slot(s, b) && Slot(s, s.procs[p].place.j) && Between(s, a, b)
    ensures Between(DoWake(s, p), a, b)
  {
  }

  /** A process is about to become a zombie: its parent is not asleep in wait nor on its way to
      sleep, and it has no children left. */
  lemma DiesNoticed(s: State, p: nat)
    requires Inv(s) && CanDie(s, p)
    ensures s.procs[p].parent < NPROC ==> !Drowsy(s.procs[s.procs[p].parent])
    ensures forall q :: 0 <= q < NPROC ==> s.procs[q].parent != p
  {
    forall q | 0 <= q < NPROC ensures s.procs[q].parent != p && (s.procs[p].parent == q ==> !Drowsy(s.procs[q])) {
      assert Between(s, p, q) && Slot(s, p);
    }
  }

  /** Once exit's wakeup has passed the parent's slot, or its wakeup of init that slot, the
      process there is not asleep in wait nor on its way to sleep. */
  lemma PassedAwake(s: State, p: nat, q: nat)
    requires Inv(s) && p < NPROC && q < NPROC && (s.procs[p].place.ExitWake? || s.procs[p].place.InitWake?)
    requires q < s.procs[p].place.j && q == if s.procs[p].place.ExitWake? then s.procs[p].parent else INIT
    ensures !Drowsy(s.procs[q])
  {
    assert Between(s, p, q);
  }

  lemma DieSlot(s: State, p: nat, q: nat)
    requires Wf(s) && CanDie(s, p) && q < NPROC && Slot(s, p) && Slot(s, q) && Between(s, p, q)
    ensures Slot(DoDie(s, p), q)
  {
  }

  lemma DiePair(s: State, p: nat, a: nat, b: nat)
    requires Wf(s) && CanDie(s, p) && a < NPROC && b < NPROC
    requires Slot(s, p) && Slot(s, a) && Slot(s, b) && Between(s, a, b) && Between(s, p, a)
    ensures Between(DoDie(s, p), a, b)
  {
  }

  lemma LeaveSlot(s: State, p: nat, q: nat)
    requires Wf(s) && CanLeave(s, p) && q < NPROC && Slot(s, p) && Slot(s, q)
    ensures Slot(DoLeave(s, p), q)
  {
  }

  lemma LeavePair(s: State, p: nat, a: nat, b: nat)
    requires Wf(s) && CanLeave(s, p) && a < NPROC && b < NPROC
    requires Slot(s, p) && Slot(s, a) && Slot(s, b) && Between(s, a, b)
    ensures Between(DoLeave(s, p), a, b)
  {
  }

  lemma SwitchSlot(s: State, p: nat, q: nat)
    requires Wf(s) && CanSwitch(s, p) && q < NPROC && Slot(s, p) && Slot(s, q)
    ensures Slot(DoSwitch(s, p), q)
  {
  }

  lemma SwitchPair(s: State, p: nat, a: nat, b: nat)
    requires Wf(s) && CanSwitch(s, p) && a < NPROC && b < NPROC
    requires Slot(s, p) && Slot(s, a) && Slot(s, b) && Between(s, a, b)
    ensures Between(DoSwitch(s, p), a, b)
  {
  }

  lemma WaitLockSlot(s: State, p: nat, q: nat)
    requires Wf(s) && CanWaitLock(s, p) && q < NPROC && Slot(s, p) && Slot(s, q)
    ensures Slot(DoWaitLock(s, p), q)
  {
  }

  lemma WaitLockPair(s: State, p: nat, a: nat, b: nat)
    requires Wf(s) && CanWaitLock(s, p) && a < NPROC && b < NPROC
    requires Slot(s, p) && Slot(s, a) && Slot(s, b) && Between(s, a, b)
    ensures Between(DoWaitLock(s, p), a, b)
  {
  }

  lemma ReapSlot(s: State, p: nat, q: nat)
    requires Wf(s) && CanReap(s, p) && q < NPROC && Slot(s, p) && Slot(s, q) && Slot(s, s.procs[p].place.i)
    requires Between(s, s.procs[p].place.i, q)
    ensures Slot(DoReap(s, p), q)
  {
  }

  lemma ReapPair(s: State, p: nat, a: nat, b: nat)
    requires Wf(s) && CanReap(s, p) && a < NPROC && b < NPROC
    requires Slot(s, p) && Slot(s, a) && Slot(s, b) && Slot(s, s.procs[p].place.i) && Between(s, a, b)
    ensures Between(DoReap(s, p), a, b)
  {
  }

  lemma ReturnSlot(s: State, p: nat, q: nat)
    requires Wf(s) && CanReturn(s, p) && q < NPROC && Slot(s, p) && Slot(s, q)
    ensures Slot(DoReturn(s, p), q)
  {
  }

  lemma ReturnPair(s: State, p: nat, a: nat, b: nat)
    requires Wf(s) && CanReturn(s, p) && a < NPROC && b < NPROC
    requires Slot(s, p) && Slot(s, a) && Slot(s, b) && Between(s, a, b)
    ensures Between(DoReturn(s, p), a, b)
  {
  }

  lemma LockSelfSlot(s: State, p: nat, q: nat)
    requires Wf(s) && CanLockSelf(s, p) && q < NPROC && Slot(s, p) && Slot(s, q)
    ensures Slot(DoLockSelf(s, p), q)
  {
  }

  lemma LockSelfPair(s: State, p: nat, a: nat, b: nat)
    requires Wf(s) && CanLockSelf(s, p) && a < NPROC && b < NPROC
    requires Slot(s, p) && Slot(s, a) && Slot(s, b) && Between(s, a, b)
    ensures Between(DoLockSelf(s, p), a, b)
  {
  }

  lemma ReleaseSlot(s: State, p: nat, q: nat)
    requires Wf(s) && CanRelease(s, p) && q < NPROC && Slot(s, p) && Slot(s, q)
    ensures Slot(DoRelease(s, p), q)
  {
  }

  lemma ReleasePair(s: State, p: nat, a: nat, b: nat)
    requires Wf(s) && CanRelease(s, p) && a < NPROC && b < NPROC
    requires Slot(s, p) && Slot(s, a) && Slot(s, b) && Between(s, a, b)
    ensures Between(DoRelease(s, p), a, b)
  {
  }

  lemma FallAsleepSlot(s: State, p: nat, q: nat)
    requires Wf(s) && CanFallAsleep(s, p) && q < NPROC && Slot(s, p) && Slot(s, q)
    ensures Slot(DoFallAsleep(s, p), q)
  {
  }

  lemma FallAsleepPair(s: State, p: nat, a: nat, b: nat)
    requires Wf(s) && CanFallAsleep(s, p) && a < NPROC && b < NPROC
    requires Slot(s, p) && Slot(s, a) && Slot(s, b) && Between(s, a, b)
    ensures Between(DoFallAsleep(s, p), a, b)
  {
  }

  lemma TidyUpSlot(s: State, p: nat, q: nat)
    requires Wf(s) && CanTidyUp(s, p) && q < NPROC && Slot(s, p) && Slot(s, q)
    ensures Slot(DoTidyUp(s, p), q)
  {
  }

  lemma TidyUpPair(s: State, p: nat, a: nat, b: nat)
    requires Wf(s) && CanTidyUp(s, p) && a < NPROC && b < NPROC
    requires Slot(s, p) && Slot(s, a) && Slot(s, b) && Between(s, a, b)
    ensures Between(DoTidyUp(s, p), a, b)
  {
  }

  lemma AdvanceSlot(s: State, p: nat, q: nat)
    requires Wf(s) && CanAdvance(s, p) && q < NPROC && Slot(s, p) && Slot(s, q)
    ensures Slot(DoAdvance(s, p), q)
  {
  }

  lemma AdvancePair(s: State, p: nat, a: nat, b: nat)
    requires Wf(s) && CanAdvance(s, p) && a < NPROC && b < NPROC
    requires Slot(s, p) && Slot(s, a) && Slot(s, b) && Between(s, a, b)
    ensures Between(DoAdvance(s, p), a, b)
  {
  }

  /** The other slot a step works on, if any; otherwise the actor's own. */
  function Other(s: State, step: Step): (q: nat)
    requires Wf(s) && Enabled(s, step)
    ensures q < NPROC
  {
    var pl := s.procs[step.p].place;
    if step.Alloc? then step.np
    else if step.ForkFail? || step.ForkUnlock? || step.SetParent? || step.MakeRunnable? then pl.np
    else if step.Adopt? || step.Reap? then pl.i
    else if step.Wake? then pl.j
    else step.p
  }

  /** What the lemmas above ask for, of slot q. */
  predicate Near(s: State, step: Step, q: nat)
    requires Wf(s) && Enabled(s, step)
  {
    && q < NPROC && s.nextpid > 0 && s.nextpid !in s.reaped
    && Slot(s, q) && Slot(s, step.p) && Slot(s, Other(s, step)) && Slot(s, INIT)
    && Between(s, step.p, q) && Between(s, Other(s, step), q)
  }

  predicate InScheduling(step: Step) {
    step.Schedule? || step.Preempt? || step.SleepOn? || step.WakeOther? || step.Kill?
  }

  lemma SchedulingStepSlot(s: State, step: Step, q: nat)
    requires Wf(s) && Enabled(s, step) && InScheduling(step) && Near(s, step, q)
    ensures Slot(Next(s, step), q)
  {
    match step
    case Schedule(p) => ScheduleSlot(s, p, q);
    case Preempt(p) => PreemptSlot(s, p, q);
    case SleepOn(p, c) => SleepOnSlot(s, p, c, q);
    case WakeOther(p) => WakeOtherSlot(s, p, q);
    case Kill(p) => KillSlot(s, p, q);
  }

  lemma SchedulingStepPair(s: State, step: Step, a: nat, b: nat)
    requires Wf(s) && Enabled(s, step) && InScheduling(step) && Near(s, step, a) && Near(s, step, b) && Between(s, a, b)
    ensures Between(Next(s, step), a, b)
  {
    match step
    case Schedule(p) => SchedulePair(s, p, a, b);
    case Preempt(p) => PreemptPair(s, p, a, b);
    case SleepOn(p, c) => SleepOnPair(s, p, c, a, b);
    case WakeOther(p) => WakeOtherPair(s, p, a, b);
    case Kill(p) => KillPair(s, p, a, b);
  }

  predicate InFork(step: Step) {
    step.Alloc? || step.ForkFail? || step.ForkUnlock? || step.ForkLock? || step.SetParent? || step.MakeRunnable?
  }

  lemma ForkStepSlot(s: State, step: Step, q: nat)
    requires Wf(s) && Enabled(s, step) && InFork(step) && Near(s, step, q)
    ensures Slot(Next(s, step), q)
  {
    match step
    case Alloc(p, np) => AllocSlot(s, p, np, q);
    case ForkFail(p) => ForkFailSlot(s, p, q);
    case ForkUnlock(p) => ForkUnlockSlot(s, p, q);
    case ForkLock(p) => ForkLockSlot(s, p, q);
    case SetParent(p) => SetParentSlot(s, p, q);
    case MakeRunnable(p) => MakeRunnableSlot(s, p, q);
  }

  lemma ForkStepPair(s: State, step: Step, a: nat, b: nat)
    requires Wf(s) && Enabled(s, step) && InFork(step) && Near(s, step, a) && Near(s, step, b) && Between(s, a, b)
    ensures Between(Next(s, step), a, b)
  {
    match step
    case Alloc(p, np) => AllocPair(s, p, np, a, b);
    case ForkFail(p) => ForkFailPair(s, p, a, b);
    case ForkUnlock(p) => ForkUnlockPair(s, p, a, b);
    case ForkLock(p) => ForkLockPair(s, p, a, b);
    case SetParent(p) => SetParentPair(s, p, a, b);
    case MakeRunnable(p) => MakeRunnablePair(s, p, a, b);
  }

  predicate InExit(step: Step) {
    step.ExitLock? || step.Adopt? || step.Wake? || step.Die? || step.Leave? || step.Switch?
  }

  lemma ExitStepSlot(s: State, step: Step, q: nat)
    requires Wf(s) && Enabled(s, step) && InExit(step) && Near(s, step, q)
    ensures Slot(Next(s, step), q)
  {
    match step
    case ExitLock(p) => ExitLockSlot(s, p, q);
    case Adopt(p) => AdoptSlot(s, p, q);
    case Wake(p) => WakeSlot(s, p, q);
    case Die(p) => DieSlot(s, p, q);
    case Leave(p) => LeaveSlot(s, p, q);
    case Switch(p) => SwitchSlot(s, p, q);
  }

  lemma ExitStepPair(s: State, step: Step, a: nat, b: nat)
    requires Wf(s) && Enabled(s, step) && InExit(step) && Near(s, step, a) && Near(s, step, b) && Between(s, a, b)
    ensures Between(Next(s, step), a, b)
  {
    match step
    case ExitLock(p) => ExitLockPair(s, p, a, b);
    case Adopt(p) => AdoptPair(s, p, a, b);
    case Wake(p) => WakePair(s, p, a, b);
    case Die(p) => DiePair(s, p, a, b);
    case Leave(p) => LeavePair(s, p, a, b);
    case Switch(p) => SwitchPair(s, p, a, b);
  }

  predicate InWait(step: Step) {
    step.WaitLock? || step.Reap? || step.Return? || step.Advance?
  }

  lemma WaitStepSlot(s: State, step: Step, q: nat)
    requires Wf(s) && Enabled(s, step) && InWait(step) && Near(s, step, q)
    ensures Slot(Next(s, step), q)
  {
    match step
    case WaitLock(p) => WaitLockSlot(s, p, q);
    case Reap(p) => ReapSlot(s, p, q);
    case Return(p) => ReturnSlot(s, p, q);
    case Advance(p) => AdvanceSlot(s, p, q);
  }

  lemma WaitStepPair(s: State, step: Step, a: nat, b: nat)
    requires Wf(s) && Enabled(s, step) && InWait(step) && Near(s, step, a) && Near(s, step, b) && Between(s, a, b)
    ensures Between(Next(s, step), a, b)
  {
    match step
    case WaitLock(p) => WaitLockPair(s, p, a, b);
    case Reap(p) => ReapPair(s, p, a, b);
    case Return(p) => ReturnPair(s, p, a, b);
    case Advance(p) => AdvancePair(s, p, a, b);
  }

  predicate InSleep(step: Step) {
    step.LockSelf? || step.Release? || step.FallAsleep? || step.TidyUp?
  }

  lemma SleepStepSlot(s: State, step: Step, q: nat)
    requires Wf(s) && Enabled(s, step) && InSleep(step) && Near(s, step, q)
    ensures Slot(Next(s, step), q)
  {
    match step
    case LockSelf(p) => LockSelfSlot(s, p, q);
    case Release(p) => ReleaseSlot(s, p, q);
    case FallAsleep(p) => FallAsleepSlot(s, p, q);
    case TidyUp(p) => TidyUpSlot(s, p, q);
  }

  lemma SleepStepPair(s: State, step: Step, a: nat, b: nat)
    requires Wf(s) && Enabled(s, step) && InSleep(step) && Near(s, step, a) && Near(s, step, b) && Between(s, a, b)
    ensures Between(Next(s, step), a, b)
  {
    match step
    case LockSelf(p) => LockSelfPair(s, p, a, b);
    case Release(p) => ReleasePair(s, p, a, b);
    case FallAsleep(p) => FallAsleepPair(s, p, a, b);
    case TidyUp(p) => TidyUpPair(s, p, a, b);
  }

  lemma NearAll(s: State, step: Step, q: nat)
    requires Inv(s) && Enabled(s, step) && q < NPROC
    ensures Near(s, step, q)
  {
  }

  lemma StepSlot(s: State, step: Step, q: nat)
    requires Inv(s) && Enabled(s, step) && q < NPROC
    ensures Slot(Next(s, step), q)
  {
    NearAll(s, step, q);
    if InScheduling(step) {
      SchedulingStepSlot(s, step, q);
    } else if InFork(step) {
      ForkStepSlot(s, step, q);
    } else if InExit(step) {
      ExitStepSlot(s, step, q);
    } else if InWait(step) {
      WaitStepSlot(s, step, q);
    } else {
      SleepStepSlot(s, step, q);
    }
  }

  lemma StepPair(s: State, step: Step, a: nat, b: nat)
    requires Inv(s) && Enabled(s, step) && a < NPROC && b < NPROC
    ensures Between(Next(s, step), a, b)
  {
    NearAll(s, step, a);
    NearAll(s, step, b);
    assert Between(s, a, b);
    if InScheduling(step) {
      SchedulingStepPair(s, step, a, b);
    } else if InFork(step) {
      ForkStepPair(s, step, a, b);
    } else if InExit(step) {
      ExitStepPair(s, step, a, b);
    } else if InWait(step) {
      WaitStepPair(s, step, a, b);
    } else {
      SleepStepPair(s, step, a, b);
    }
  }

  /** Every step of every process keeps the invariant. */
  lemma StepKeepsInv(s: State, step: Step)
    requires Inv(s) && Enabled(s, step)
    ensures Inv(Next(s, step))
  {
    var s' := Next(s, step);
    forall q | 0 <= q < NPROC ensures Slot(s', q) {
      StepSlot(s, step, q);
    }
    forall a, b | 0 <= a < NPROC && 0 <= b < NPROC ensures Between(s', a, b) {
      StepPair(s, step, a, b);
    }
    assert step.Reap? ==> Slot(s, Other(s, step));
  }
}
