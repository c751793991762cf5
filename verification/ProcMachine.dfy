/** fork, exit and wait of proc.c as steps between lock operations. Each process slot carries
    its place in the code; wait_lock and every p->lock are explicit, so that the steps of
    different processes interleave in every way the locks allow. */
module ProcMachine {
  const NPROC: nat := 64
  const INIT: nat := 0          // initproc's slot
  const NONE: nat := NPROC      // no process: a null parent, a free lock

  datatype Status = Unused | Used | Runnable | Running | Sleeping | Zombie

  /** Where a process is. The loop counters of reparent, wakeup and wait are part of the place. */
  datatype Place =
    | User                               // outside fork, exit and wait
    | ForkAlloc(np: nat)                 // np from allocproc, its lock held
    | ForkMade(np: nat)                  // its lock released
    | ForkHold(np: nat)                  // wait_lock held, about to set np's parent
    | ForkDone(np: nat)                  // about to make np runnable
    | Reparent(i: nat)                   // exit, wait_lock held: reparent's loop
    | InitWake(i: nat, j: nat)           // wakeup(initproc) after giving child i to init
    | ExitWake(j: nat)                   // wakeup(p->parent)
    | ExitUnlock                         // a zombie, both locks held
    | ExitSched                          // a zombie, p->lock held
    | Dead
    | Scan(i: nat, kids: bool)           // wait, wait_lock held: its loop over the table
    | Decided                            // has children, none a zombie: about to sleep
    | Doze                               // sleep: p->lock taken as well
    | Nod                                // sleep: wait_lock released
    | Asleep                             // sleep: switched away
    | Woken                              // sleep: running again, p->lock held
    | Relock                             // sleep: about to retake wait_lock
    | Elsewhere                          // asleep on some other channel

  /** A slot of the process table. `lock` is the slot whose process holds p->lock. `maker` is
      the process whose fork allocated the slot, kept for the proofs. */
  datatype Proc = Proc(status: Status, chan: nat, parent: nat, pid: nat, killed: bool, lock: nat, place: Place,
                       maker: nat)

  /** `reaped` is the history of pids freed by wait. */
  datatype State = State(procs: seq<Proc>, waitLock: nat, nextpid: nat, reaped: set<nat>)

  /** The channel that is a slot's own address; larger numbers are all other channels. */
  function Chan(p: nat): nat {
    p + 1
  }

  datatype Step =
    // the scheduler, interrupts, other channels, kill
    | Schedule(p: nat) | Preempt(p: nat) | SleepOn(p: nat, c: nat) | WakeOther(p: nat) | Kill(p: nat)
    // fork
    | Alloc(p: nat, np: nat) | ForkFail(p: nat) | ForkUnlock(p: nat) | ForkLock(p: nat) | SetParent(p: nat)
    | MakeRunnable(p: nat)
    // exit
    | ExitLock(p: nat) | Adopt(p: nat) | Wake(p: nat) | Die(p: nat) | Leave(p: nat) | Switch(p: nat)
    // wait
    | WaitLock(p: nat) | Reap(p: nat) | Return(p: nat) | LockSelf(p: nat) | Release(p: nat) | FallAsleep(p: nat)
    | TidyUp(p: nat)
    // the loops of exit and wait, where they change no other slot
    | Advance(p: nat)

  /** freeproc, with p->lock released after it. */
  const FREED: Proc := Proc(Unused, 0, NONE, 0, false, NONE, User, NONE)

  predicate Wf(s: State) {
    |s.procs| == NPROC && s.waitLock <= NONE
  }

  /** Process p may take a step of its own in place pl. */
  predicate At(s: State, p: nat, pl: Place)
    requires Wf(s)
  {
    p < NPROC && s.procs[p].status == Running && s.procs[p].place == pl
  }

  predicate Runs(s: State, p: nat)
    requires Wf(s)
  {
    p < NPROC && s.procs[p].status == Running
  }

  predicate Free(s: State, q: nat)
    requires Wf(s)
  {
    q < NPROC && s.procs[q].lock == NONE
  }

  /** Places where a process holds no spinlock, so that a timer interrupt may make it yield. */
  predicate Lockless(pl: Place) {
    pl.User? || pl.ForkMade? || pl.ForkDone? || pl.Relock?
  }

  /** Process p is in a wakeup loop at slot j, whose lock it can take. */
  predicate AtSlot(s: State, p: nat, j: nat)
    requires Wf(s)
  {
    j < NPROC && (j == p || Free(s, j))
  }

  /** The channel of the wakeup that exit is performing. */
  function Target(x: Proc): nat {
    if x.place.InitWake? then Chan(INIT) else Chan(x.parent)
  }

  predicate SleepsOn(s: State, p: nat, j: nat, chan: nat)
    requires Wf(s) && j < NPROC
  {
    j != p && s.procs[j].status == Sleeping && s.procs[j].chan == chan
  }

  function With(s: State, p: nat, x: Proc): State
    requires p < |s.procs|
  {
    s.(procs := s.procs[p := x])
  }

  function Moved(s: State, p: nat, pl: Place): State
    requires p < |s.procs|
  {
    With(s, p, s.procs[p].(place := pl))
  }

  function Resumed(pl: Place): Place {
    if pl.Asleep? then Woken else if pl.Elsewhere? then User else pl
  }

  predicate CanSchedule(s: State, p: nat)
    requires Wf(s)
  {
    Free(s, p) && s.procs[p].status == Runnable
  }

  function DoSchedule(s: State, p: nat): State
    requires Wf(s) && CanSchedule(s, p)
  {
    var x := s.procs[p];
    With(s, p, x.(status := Running, place := Resumed(x.place),
                  lock := if x.place.Asleep? then p else NONE,
                  chan := if x.place.Elsewhere? then 0 else x.chan))
  }

  predicate CanPreempt(s: State, p: nat)
    requires Wf(s)
  {
    Runs(s, p) && Free(s, p) && Lockless(s.procs[p].place)
  }

  function DoPreempt(s: State, p: nat): State
    requires Wf(s) && CanPreempt(s, p)
  {
    With(s, p, s.procs[p].(status := Runnable))
  }

  predicate CanSleepOn(s: State, p: nat, c: nat)
    requires Wf(s)
  {
    At(s, p, User) && Free(s, p) && c > NPROC
  }

  function DoSleepOn(s: State, p: nat, c: nat): State
    requires Wf(s) && CanSleepOn(s, p, c)
  {
    With(s, p, s.procs[p].(status := Sleeping, chan := c, place := Elsewhere))
  }

  predicate CanWakeOther(s: State, p: nat)
    requires Wf(s)
  {
    Free(s, p) && s.procs[p].status == Sleeping && s.procs[p].chan > NPROC
  }

  function DoWakeOther(s: State, p: nat): State
    requires Wf(s) && CanWakeOther(s, p)
  {
    With(s, p, s.procs[p].(status := Runnable))
  }

  predicate CanKill(s: State, p: nat)
    requires Wf(s)
  {
    Free(s, p)
  }

  function DoKill(s: State, p: nat): State
    requires Wf(s) && CanKill(s, p)
  {
    var status := if s.procs[p].status == Sleeping then Runnable else s.procs[p].status;
    With(s, p, s.procs[p].(killed := true, status := status))
  }

  predicate CanAlloc(s: State, p: nat, np: nat)
    requires Wf(s)
  {
    At(s, p, User) && Free(s, np) && s.procs[np].status == Unused
  }

  function DoAlloc(s: State, p: nat, np: nat): State
    requires Wf(s) && CanAlloc(s, p, np)
  {
    var s1 := With(s, np, s.procs[np].(status := Used, pid := s.nextpid, lock := p, maker := p));
    Moved(s1, p, ForkAlloc(np)).(nextpid := s.nextpid + 1)
  }

  predicate CanForkFail(s: State, p: nat)
    requires Wf(s)
  {
    Runs(s, p) && s.procs[p].place.ForkAlloc? && s.procs[p].place.np < NPROC
  }

  function DoForkFail(s: State, p: nat): State
    requires Wf(s) && CanForkFail(s, p)
  {
    Moved(With(s, s.procs[p].place.np, FREED), p, User)
  }

  predicate CanForkUnlock(s: State, p: nat)
    requires Wf(s)
  {
    Runs(s, p) && s.procs[p].place.ForkAlloc? && s.procs[p].place.np < NPROC
  }

  function DoForkUnlock(s: State, p: nat): State
    requires Wf(s) && CanForkUnlock(s, p)
  {
    var np := s.procs[p].place.np;
    Moved(With(s, np, s.procs[np].(lock := NONE)), p, ForkMade(np))
  }

  predicate CanForkLock(s: State, p: nat)
    requires Wf(s)
  {
    Runs(s, p) && s.procs[p].place.ForkMade? && s.waitLock == NONE
  }

  function DoForkLock(s: State, p: nat): State
    requires Wf(s) && CanForkLock(s, p)
  {
    Moved(s, p, ForkHold(s.procs[p].place.np)).(waitLock := p)
  }

  predicate CanSetParent(s: State, p: nat)
    requires Wf(s)
  {
    Runs(s, p) && s.procs[p].place.ForkHold? && s.procs[p].place.np < NPROC
  }

  function DoSetParent(s: State, p: nat): State
    requires Wf(s) && CanSetParent(s, p)
  {
    var np := s.procs[p].place.np;
    Moved(With(s, np, s.procs[np].(parent := p)), p, ForkDone(np)).(waitLock := NONE)
  }

  predicate CanMakeRunnable(s: State, p: nat)
    requires Wf(s)
  {
    Runs(s, p) && s.procs[p].place.ForkDone? && Free(s, s.procs[p].place.np)
  }

  function DoMakeRunnable(s: State, p: nat): State
    requires Wf(s) && CanMakeRunnable(s, p)
  {
    var np := s.procs[p].place.np;
    Moved(With(s, np, s.procs[np].(status := Runnable)), p, User)
  }

  predicate CanExitLock(s: State, p: nat)
    requires Wf(s)
  {
    At(s, p, User) && p != INIT && s.waitLock == NONE
  }

  function DoExitLock(s: State, p: nat): State
    requires Wf(s) && CanExitLock(s, p)
  {
    Moved(s, p, Reparent(0)).(waitLock := p)
  }

  /** reparent finds a child. */
  predicate CanAdopt(s: State, p: nat)
    requires Wf(s)
  {
    && Runs(s, p) && s.procs[p].place.Reparent? && s.procs[p].place.i < NPROC
    && s.procs[s.procs[p].place.i].parent == p
  }

  function DoAdopt(s: State, p: nat): State
    requires Wf(s) && CanAdopt(s, p)
  {
    var i := s.procs[p].place.i;
    Moved(With(s, i, s.procs[i].(parent := INIT)), p, InitWake(i, 0))
  }

  /** wakeup finds a process asleep on its channel. */
  predicate CanWake(s: State, p: nat)
    requires Wf(s)
  {
    && Runs(s, p) && (s.procs[p].place.InitWake? || s.procs[p].place.ExitWake?)
    && AtSlot(s, p, s.procs[p].place.j) && SleepsOn(s, p, s.procs[p].place.j, Target(s.procs[p]))
  }

  function DoWake(s: State, p: nat): State
    requires Wf(s) && CanWake(s, p)
  {
    var j := s.procs[p].place.j;
    Moved(With(s, j, s.procs[j].(status := Runnable)), p, Onward(s.procs[p].place))
  }

  function Onward(pl: Place): Place
    requires pl.InitWake? || pl.ExitWake?
  {
    pl.(j := pl.j + 1)
  }

  predicate CanDie(s: State, p: nat)
    requires Wf(s)
  {
    Runs(s, p) && s.procs[p].place.ExitWake? && s.procs[p].place.j >= NPROC && Free(s, p)
  }

  function DoDie(s: State, p: nat): State
    requires Wf(s) && CanDie(s, p)
  {
    With(s, p, s.procs[p].(status := Zombie, lock := p, place := ExitUnlock))
  }

  predicate CanLeave(s: State, p: nat)
    requires Wf(s)
  {
    p < NPROC && s.procs[p].place == ExitUnlock
  }

  function DoLeave(s: State, p: nat): State
    requires Wf(s) && CanLeave(s, p)
  {
    Moved(s, p, ExitSched).(waitLock := NONE)
  }

  predicate CanSwitch(s: State, p: nat)
    requires Wf(s)
  {
    p < NPROC && s.procs[p].place == ExitSched
  }

  function DoSwitch(s: State, p: nat): State
    requires Wf(s) && CanSwitch(s, p)
  {
    With(s, p, s.procs[p].(lock := NONE, place := Dead))
  }

  predicate CanWaitLock(s: State, p: nat)
    requires Wf(s)
  {
    (At(s, p, User) || At(s, p, Relock)) && s.waitLock == NONE
  }

  function DoWaitLock(s: State, p: nat): State
    requires Wf(s) && CanWaitLock(s, p)
  {
    Moved(s, p, Scan(0, false)).(waitLock := p)
  }

  /** wait finds a zombie child, and the copy of its status succeeds. */
  predicate CanReap(s: State, p: nat)
    requires Wf(s)
  {
    && Runs(s, p) && s.procs[p].place.Scan? && s.procs[p].place.i < NPROC && Free(s, s.procs[p].place.i)
    && s.procs[s.procs[p].place.i].parent == p && s.procs[s.procs[p].place.i].status == Zombie
  }

  function DoReap(s: State, p: nat): State
    requires Wf(s) && CanReap(s, p)
  {
    var i := s.procs[p].place.i;
    Moved(With(s, i, FREED), p, User).(waitLock := NONE, reaped := s.reaped + {s.procs[i].pid})
  }

  /** wait returns -1: the copy failed, or there are no children, or the process was killed. */
  predicate CanReturn(s: State, p: nat)
    requires Wf(s)
  {
    && Runs(s, p) && s.procs[p].place.Scan?
    && if s.procs[p].place.i < NPROC then CanReap(s, p) else Free(s, p) && (!s.procs[p].place.kids || s.procs[p].killed)
  }

  function DoReturn(s: State, p: nat): State
    requires Wf(s) && CanReturn(s, p)
  {
    Moved(s, p, User).(waitLock := NONE)
  }

  predicate CanLockSelf(s: State, p: nat)
    requires Wf(s)
  {
    At(s, p, Decided) && Free(s, p)
  }

  function DoLockSelf(s: State, p: nat): State
    requires Wf(s) && CanLockSelf(s, p)
  {
    With(s, p, s.procs[p].(lock := p, place := Doze))
  }

  predicate CanRelease(s: State, p: nat)
    requires Wf(s)
  {
    At(s, p, Doze)
  }

  function DoRelease(s: State, p: nat): State
    requires Wf(s) && CanRelease(s, p)
  {
    Moved(s, p, Nod).(waitLock := NONE)
  }

  predicate CanFallAsleep(s: State, p: nat)
    requires Wf(s)
  {
    At(s, p, Nod)
  }

  function DoFallAsleep(s: State, p: nat): State
    requires Wf(s) && CanFallAsleep(s, p)
  {
    With(s, p, s.procs[p].(status := Sleeping, chan := Chan(p), lock := NONE, place := Asleep))
  }

  predicate CanTidyUp(s: State, p: nat)
    requires Wf(s)
  {
    At(s, p, Woken)
  }

  function DoTidyUp(s: State, p: nat): State
    requires Wf(s) && CanTidyUp(s, p)
  {
    With(s, p, s.procs[p].(chan := 0, lock := NONE, place := Relock))
  }

  /** The loops move on: past a slot with nothing to do, or past the end of the table. */
  predicate CanAdvance(s: State, p: nat)
    requires Wf(s)
  {
    Runs(s, p) &&
    match s.procs[p].place
    case Reparent(i) => i < NPROC ==> s.procs[i].parent != p
    case InitWake(_, j) => j < NPROC ==> AtSlot(s, p, j) && !SleepsOn(s, p, j, Chan(INIT))
    case ExitWake(j) => j < NPROC && AtSlot(s, p, j) && !SleepsOn(s, p, j, Chan(s.procs[p].parent))
    case Scan(i, kids) =>
      if i < NPROC then s.procs[i].parent == p ==> Free(s, i) && s.procs[i].status != Zombie
      else Free(s, p) && kids && !s.procs[p].killed
    case _ => false
  }

  function Later(s: State, p: nat): Place
    requires Wf(s) && CanAdvance(s, p)
  {
    match s.procs[p].place
    case Reparent(i) => if i < NPROC then Reparent(i + 1) else ExitWake(0)
    case InitWake(i, j) => if j < NPROC then InitWake(i, j + 1) else Reparent(i + 1)
    case ExitWake(j) => ExitWake(j + 1)
    case Scan(i, kids) => if i < NPROC then Scan(i + 1, kids || s.procs[i].parent == p) else Decided
  }

  function DoAdvance(s: State, p: nat): State
    requires Wf(s) && CanAdvance(s, p)
  {
    Moved(s, p, Later(s, p))
  }

  predicate Enabled(s: State, step: Step)
    requires Wf(s)
  {
    match step
    case Schedule(p) => CanSchedule(s, p)
    case Preempt(p) => CanPreempt(s, p)
    case SleepOn(p, c) => CanSleepOn(s, p, c)
    case WakeOther(p) => CanWakeOther(s, p)
    case Kill(p) => CanKill(s, p)
    case Alloc(p, np) => CanAlloc(s, p, np)
    case ForkFail(p) => CanForkFail(s, p)
    case ForkUnlock(p) => CanForkUnlock(s, p)
    case ForkLock(p) => CanForkLock(s, p)
    case SetParent(p) => CanSetParent(s, p)
    case MakeRunnable(p) => CanMakeRunnable(s, p)
    case ExitLock(p) => CanExitLock(s, p)
    case Adopt(p) => CanAdopt(s, p)
    case Wake(p) => CanWake(s, p)
    case Die(p) => CanDie(s, p)
    case Leave(p) => CanLeave(s, p)
    case Switch(p) => CanSwitch(s, p)
    case WaitLock(p) => CanWaitLock(s, p)
    case Reap(p) => CanReap(s, p)
    case Return(p) => CanReturn(s, p)
    case LockSelf(p) => CanLockSelf(s, p)
    case Release(p) => CanRelease(s, p)
    case FallAsleep(p) => CanFallAsleep(s, p)
    case TidyUp(p) => CanTidyUp(s, p)
    case Advance(p) => CanAdvance(s, p)
  }

  function Next(s: State, step: Step): State
    requires Wf(s) && Enabled(s, step)
  {
    match step
    case Schedule(p) => DoSchedule(s, p)
    case Preempt(p) => DoPreempt(s, p)
    case SleepOn(p, c) => DoSleepOn(s, p, c)
    case WakeOther(p) => DoWakeOther(s, p)
    case Kill(p) => DoKill(s, p)
    case Alloc(p, np) => DoAlloc(s, p, np)
    case ForkFail(p) => DoForkFail(s, p)
    case ForkUnlock(p) => DoForkUnlock(s, p)
    case ForkLock(p) => DoForkLock(s, p)
    case SetParent(p) => DoSetParent(s, p)
    case MakeRunnable(p) => DoMakeRunnable(s, p)
    case ExitLock(p) => DoExitLock(s, p)
    case Adopt(p) => DoAdopt(s, p)
    case Wake(p) => DoWake(s, p)
    case Die(p) => DoDie(s, p)
    case Leave(p) => DoLeave(s, p)
    case Switch(p) => DoSwitch(s, p)
    case WaitLock(p) => DoWaitLock(s, p)
    case Reap(p) => DoReap(s, p)
    case Return(p) => DoReturn(s, p)
    case LockSelf(p) => DoLockSelf(s, p)
    case Release(p) => DoRelease(s, p)
    case FallAsleep(p) => DoFallAsleep(s, p)
    case TidyUp(p) => DoTidyUp(s, p)
    case Advance(p) => DoAdvance(s, p)
  }

  /** After userinit: init runnable, every other slot unused. */
  function Initial(): State {
    State(seq(NPROC, i => if i == INIT then FREED.(status := Runnable, pid := 1) else FREED), NONE, 2, {})
  }
}
