/** What a thread may rely on while other threads take steps. */
module CowIsolation {
  import opened CowMachine
  import opened CowSafety
  import opened CowWindow

  /** The references only thread t may change: its slots and the tables it acts on. */
  predicate Mine(s: State, t: nat, o: Owner) {
    match o
    case InFlight(tid, _) => tid == t
    case User(pid, _) => Acts(s, t, pid)
  }

  /** o refers to the same page in the same way, and the page has the same contents. */
  ghost predicate Unchanged(s: State, s': State, o: Owner) {
    && (o in s.own <==> o in s'.own)
    && (o in s.own ==> && s'.own[o] == s.own[o]
                       && s.own[o].ppn < |s.mem| && s.own[o].ppn < |s'.mem|
                       && s'.mem[s.own[o].ppn] == s.mem[s.own[o].ppn])
  }

  /** What failed forks have leaked is never less. */
  ghost predicate LeakedUp(s: State, s': State) {
    |s.leaked| == |s'.leaked| && forall p :: 0 <= p < |s.leaked| ==> s.leaked[p] <= s'.leaked[p]
  }

  /** Thread t still has the references it had, except possibly those in `except`. */
  ghost predicate Refs(t: nat, s: State, s': State, except: set<Owner>) {
    && Inv(s') && LeakedUp(s, s')
    && (forall pid :: Acts(s, t, pid) ==> Acts(s', t, pid))
    && (forall o {:trigger Unchanged(s, s', o)} :: Mine(s, t, o) && o !in except ==> Unchanged(s, s', o))
  }

  /** And it is at the same point of a store fault or of an unmapping, if it is in one. */
  ghost predicate Kept(t: nat, s: State, s': State, except: set<Owner>) {
    && Refs(t, s, s', except)
    && (t in s.sole <==> t in s'.sole) && (t in s.sole ==> s'.sole[t] == s.sole[t])
    && (t in s.stale <==> t in s'.stale) && (t in s.stale ==> s'.stale[t] == s.stale[t])
  }

  lemma RefsTrans(t: nat, a: State, b: State, c: State, x: set<Owner>, y: set<Owner>)
    requires Refs(t, a, b, x) && Refs(t, b, c, y)
    ensures Refs(t, a, c, x + y)
  {
    forall o | Mine(a, t, o) && o !in x + y ensures Unchanged(a, c, o) {
      assert Unchanged(a, b, o) && Unchanged(b, c, o);
    }
  }

  lemma KeptTrans(t: nat, a: State, b: State, c: State, x: set<Owner>, y: set<Owner>)
    requires Kept(t, a, b, x) && Kept(t, b, c, y)
    ensures Kept(t, a, c, x + y)
  {
    RefsTrans(t, a, b, c, x, y);
  }

  /** Further changes within `x` add nothing to what may have changed. */
  lemma RefsAbsorb(t: nat, a: State, b: State, c: State, x: set<Owner>, y: set<Owner>)
    requires Refs(t, a, b, x) && Refs(t, b, c, y) && y <= x
    ensures Refs(t, a, c, x)
  {
    RefsTrans(t, a, b, c, x, y);
    assert x + y == x;
  }

  lemma KeptAbsorb(t: nat, a: State, b: State, c: State, x: set<Owner>, y: set<Owner>)
    requires Kept(t, a, b, x) && Kept(t, b, c, y) && y <= x
    ensures Kept(t, a, c, x)
  {
    RefsAbsorb(t, a, b, c, x, y);
  }

  lemma KeptWiden(t: nat, a: State, b: State, x: set<Owner>, y: set<Owner>)
    requires Kept(t, a, b, x) && x <= y
    ensures Kept(t, a, b, y)
  {
  }

  lemma KeptSelf(t: nat, s: State)
    requires Inv(s)
    ensures Kept(t, s, s, {})
  {
  }

  /** The references a step of thread t changes or whose page it writes. */
  ghost function Touched(st: Step): set<Owner> {
    match st
    case MapNew(t, k, pid, v, _, _) => {InFlight(t, k), User(pid, v)}
    case SetCow(t, pid, v) => {User(pid, v)}
    case ClearW(t, pid, v) => {User(pid, v)}
    case MapShared(t, k, pid, v, child) => {InFlight(t, k), User(child, v)}
    case Unmap(t, k, pid, v) => {InFlight(t, k), User(pid, v)}
    case Clear(_) => {}
    case Unmark(t, v) => {User(t, v)}
    case Claim(t, v) => {User(t, v)}
    case Replace(t, k, k', v) => {InFlight(t, k), InFlight(t, k'), User(t, v)}
    case Write(t, v, _, _) => {User(t, v)}
    case Test(_, _) => {}
    case Spawn(_, _) => {}
    case Handover(_, _, _) => {}
    case _ => {InFlight(st.t, st.k)}
  }

  /** Steps that change neither who acts on which table, nor where in a store fault or an
      unmapping a thread is. */
  predicate Plain(st: Step) {
    !st.Test? && !st.Claim? && !st.Spawn? && !st.Handover? && !st.Unmap? && !st.Clear?
  }

  lemma SlotOwnStep(s: State, st: Step, o: Owner)
    requires Inv(s) && Enabled(s, st) && OnSlot(st) && o != InFlight(st.t, st.k)
    ensures Unchanged(s, Next(s, st), o)
  {
    if st.Fill? {
      WriterAlone(s.own, InFlight(st.t, st.k));
    }
  }

  lemma PlainOwnStep(s: State, st: Step, o: Owner)
    requires Inv(s) && Enabled(s, st) && !OnSlot(st) && !st.Write? && o !in Touched(st)
    ensures Unchanged(s, Next(s, st), o)
  {
  }

  /** A thread's own step changes only what it touches. */
  lemma OwnStep(s: State, st: Step, o: Owner)
    requires Inv(s) && Enabled(s, st) && o !in Touched(st)
    ensures Unchanged(s, Next(s, st), o)
  {
    if OnSlot(st) {
      SlotOwnStep(s, st, o);
    } else if st.Write? {
      WriterAlone(s.own, User(st.t, st.v));
    } else {
      PlainOwnStep(s, st, o);
    }
  }

  lemma TouchedMine(s: State, st: Step, o: Owner)
    requires Inv(s) && Enabled(s, st) && o in Touched(st)
    ensures Mine(s, st.t, o)
  {
  }

  lemma StepActs(s: State, st: Step, t: nat, pid: nat)
    requires Inv(s) && Enabled(s, st) && st.t != t && Acts(s, t, pid)
    ensures Acts(Next(s, st), t, pid)
  {
  }

  /** Only Test and Claim touch what is known about sole owners. */
  lemma OtherStepSole(s: State, st: Step)
    requires Inv(s) && Enabled(s, st) && !st.Test? && !st.Claim?
    ensures Next(s, st).sole == s.sole
  {
    if OnSlot(st) {
      SlotStepRoles(s, st);
    }
  }

  lemma StepSole(s: State, st: Step, t: nat)
    requires Inv(s) && Enabled(s, st) && st.t != t
    ensures t in s.sole <==> t in Next(s, st).sole
    ensures t in s.sole ==> Next(s, st).sole[t] == s.sole[t]
  {
    if st.Test? {
      assert Next(s, st).sole == s.sole[st.t := st.v];
    } else if st.Claim? {
      assert Next(s, st).sole == s.sole - {st.t};
    } else {
      OtherStepSole(s, st);
    }
  }

  lemma StepLeaked(s: State, st: Step)
    requires Inv(s) && Enabled(s, st)
    ensures LeakedUp(s, Next(s, st))
  {
    StepKeepsInv(s, st);
    SameSize(s, st);
    forall p | 0 <= p < |s.leaked| ensures s.leaked[p] <= Next(s, st).leaked[p] {
      LeakedGrows(s, st, p);
    }
  }

  /** Only a thread's own failed fork adds to what it has lost. */
  lemma StepLost(s: State, st: Step, t: nat)
    requires Inv(s) && Enabled(s, st) && (st.t != t || !st.Leak?)
    ensures Lost(Next(s, st), t) == Lost(s, t)
  {
    if OnSlot(st) && !st.Leak? {
      SlotStepRoles(s, st);
    }
  }

  lemma StepLoses(s: State, st: Step)
    requires Inv(s) && Enabled(s, st)
    ensures Lost(Next(s, st), st.t) == Lost(s, st.t) + if st.Leak? then 1 else 0
  {
    if !st.Leak? {
      StepLost(s, st, st.t);
    }
  }

  /** While others run, a thread keeps its references, the contents of the pages they
      lead to, and what it knows about being a page's only owner. */
  lemma OthersRespect(s: State, st: Step, t: nat)
    requires Inv(s) && Enabled(s, st) && st.t != t
    ensures Kept(t, s, Next(s, st), {}) && Lost(Next(s, st), t) == Lost(s, t)
  {
    StepKeepsInv(s, st);
    StepLost(s, st, t);
    StepLeaked(s, st);
    StepSole(s, st, t);
    StaleChanges(s, st, t);
    var s' := Next(s, st);
    forall pid | Acts(s, t, pid) ensures Acts(s', t, pid) {
      StepActs(s, st, t, pid);
    }
    forall o | Mine(s, t, o) ensures Unchanged(s, s', o) {
      if o in Touched(st) {
        TouchedMine(s, st, o);
      }
      OwnStep(s, st, o);
    }
  }

  /** However many steps others take. */
  lemma {:induction false} OthersRun(s: State, steps: seq<Step>, t: nat)
    requires Inv(s) && Legal(s, steps) && forall i :: 0 <= i < |steps| ==> steps[i].t != t
    ensures Kept(t, s, After(s, steps), {}) && Lost(After(s, steps), t) == Lost(s, t)
    decreases |steps|
  {
    if steps == [] {
      KeptSelf(t, s);
    } else {
      StepKeepsInv(s, steps[0]);
      OthersRespect(s, steps[0], t);
      OthersRun(Next(s, steps[0]), steps[1..], t);
      KeptAbsorb(t, s, Next(s, steps[0]), After(s, steps), {}, {});
    }
  }

  lemma StepRoles(s: State, st: Step)
    requires Inv(s) && Enabled(s, st) && !st.Spawn? && !st.Handover?
    ensures Next(s, st).actor == s.actor
  {
    if OnSlot(st) {
      SlotStepRoles(s, st);
    }
  }

  /** A thread's own step leaves alone what it does not touch. */
  lemma OwnStepRefs(s: State, st: Step)
    requires Inv(s) && Enabled(s, st) && !st.Spawn? && !st.Handover?
    ensures Refs(st.t, s, Next(s, st), Touched(st))
  {
    StepKeepsInv(s, st);
    StepLeaked(s, st);
    StepRoles(s, st);
    var s' := Next(s, st);
    forall o | Mine(s, st.t, o) && o !in Touched(st) ensures Unchanged(s, s', o) {
      OwnStep(s, st, o);
    }
  }

  lemma OwnStepKeeps(s: State, st: Step)
    requires Inv(s) && Enabled(s, st) && Plain(st)
    ensures Kept(st.t, s, Next(s, st), Touched(st))
  {
    OwnStepRefs(s, st);
    OtherStepSole(s, st);
    OtherStepStale(s, st);
  }
}
