/** The window in uvmunmap between the kfree of a page and the clearing of the page table entry
    that leads to it: who could see the stale entry, and that nobody looks. */
module CowWindow {
  import opened CowMachine
  import opened CowSafety

  /** The entries that are being unmapped. */
  ghost function StaleOwners(s: State): set<Owner> {
    set t | t in s.stale :: User(s.stale[t].pid, s.stale[t].vpn)
  }

  predicate IsStale(s: State, o: Owner) {
    && o.User? && o.pid in s.actor && s.actor[o.pid] in s.stale
    && var x := s.stale[s.actor[o.pid]]; o == User(x.pid, x.vpn)
  }

  /** What is in the page tables, stale entries included. */
  ghost function Table(s: State): map<Owner, Holding>
    requires Inv(s)
  {
    map o | o in s.own.Keys + StaleOwners(s) :: if o in s.own then s.own[o] else s.stale[s.actor[o.pid]].pte
  }

  lemma TableStale(s: State, o: Owner)
    requires Inv(s)
    ensures o in Table(s) <==> o in s.own || IsStale(s, o)
  {
  }

  /** An entry of a table whose actor is not unmapping is live. */
  lemma LiveEntry(s: State, t: nat, pid: nat, v: nat)
    requires Inv(s) && Acts(s, t, pid) && t !in s.stale
    ensures User(pid, v) in Table(s) <==> User(pid, v) in s.own
    ensures User(pid, v) in s.own ==> Table(s)[User(pid, v)] == s.own[User(pid, v)]
  {
    TableStale(s, User(pid, v));
  }

  /** The state as code sees it that looks entries up in the page tables. */
  ghost function Seen(s: State): State
    requires Inv(s)
  {
    s.(own := Table(s))
  }

  /** The references a step looks at to see whether it can be taken. */
  ghost function Looks(s: State, st: Step): set<Owner> {
    match st
    case MapNew(t, k, pid, v, _, _) => {InFlight(t, k), User(pid, v)}
    case SetCow(t, pid, v) => {User(pid, v)}
    case ClearW(t, pid, v) => {User(pid, v)}
    case Declare(t, k, pid, v) => {InFlight(t, k), User(pid, v)}
    case MapShared(t, k, pid, v, child) => {InFlight(t, k), User(pid, v), User(child, v)}
    case Unmap(t, k, pid, v) => {InFlight(t, k), User(pid, v)}
    case Clear(t) => if t in s.stale then {InFlight(t, s.stale[t].k)} else {}
    case Test(t, v) => {User(t, v)}
    case Unmark(t, v) => {User(t, v)}
    case Claim(t, v) => {User(t, v)}
    case Replace(t, k, k', v) => {InFlight(t, k), InFlight(t, k'), User(t, v)}
    case Write(t, v, _, _) => {User(t, v)}
    case Spawn(_, _) => {}
    case Handover(_, _, _) => {}
    case _ => {InFlight(st.t, st.k)}
  }

  predicate SameAt(a: map<Owner, Holding>, b: map<Owner, Holding>, o: Owner) {
    (o in a <==> o in b) && (o in a && o in b ==> a[o] == b[o])
  }

  /** The step's thread may look at o. */
  predicate Reachable(s: State, st: Step, o: Owner) {
    o.InFlight? || Acts(s, st.t, o.pid) || ((st.Unmark? || st.Claim?) && st.t in s.sole)
  }

  ghost predicate Agree(s: State, m: map<Owner, Holding>, st: Step) {
    forall o {:trigger SameAt(s.own, m, o)} :: o in Looks(s, st) && Reachable(s, st, o) ==> SameAt(s.own, m, o)
  }

  /** Steps on a thread's own slot alone. */
  predicate OnSlot(st: Step) {
    st.Pop? || st.SetCount? || st.Drop? || st.Push? || st.Fill? || st.Leak?
  }

  lemma SlotAgree(s: State, m: map<Owner, Holding>, st: Step)
    requires OnSlot(st) && Agree(s, m, st)
    ensures Enabled(s.(own := m), st) <==> Enabled(s, st)
  {
    assert SameAt(s.own, m, InFlight(st.t, st.k));
  }

  /** Steps of a process on its own page table. */
  predicate OnOwn(st: Step) {
    st.Test? || st.Unmark? || st.Claim? || st.Replace? || st.Write?
  }

  lemma OwnAgree(s: State, m: map<Owner, Holding>, st: Step)
    requires OnOwn(st) && Agree(s, m, st)
    ensures Enabled(s.(own := m), st) <==> Enabled(s, st)
  {
    assert Reachable(s, st, User(st.t, st.v)) ==> SameAt(s.own, m, User(st.t, st.v));
    if st.Replace? {
      assert SameAt(s.own, m, InFlight(st.t, st.k)) && SameAt(s.own, m, InFlight(st.t, st.k'));
    }
  }

  /** Steps on a page table the thread acts on. */
  predicate OnTable(st: Step) {
    st.MapNew? || st.SetCow? || st.ClearW? || st.Declare? || st.Unmap?
  }

  lemma TableAgree(s: State, m: map<Owner, Holding>, st: Step)
    requires OnTable(st) && Agree(s, m, st)
    ensures Enabled(s.(own := m), st) <==> Enabled(s, st)
  {
    assert Reachable(s, st, User(st.pid, st.v)) ==> SameAt(s.own, m, User(st.pid, st.v));
    if !st.SetCow? && !st.ClearW? {
      assert SameAt(s.own, m, InFlight(st.t, st.k));
    }
  }

  lemma SharedAgree(s: State, m: map<Owner, Holding>, st: Step)
    requires st.MapShared? && Agree(s, m, st)
    ensures Enabled(s.(own := m), st) <==> Enabled(s, st)
  {
    assert Acts(s, st.t, st.pid) ==> SameAt(s.own, m, User(st.pid, st.v));
    assert Acts(s, st.t, st.child) ==> SameAt(s.own, m, User(st.child, st.v));
    assert SameAt(s.own, m, InFlight(st.t, st.k));
  }

  /** Whether a step can be taken depends only on the references it looks at. */
  lemma EnabledAgree(s: State, m: map<Owner, Holding>, st: Step)
    requires Agree(s, m, st)
    ensures Enabled(s.(own := m), st) <==> Enabled(s, st)
  {
    if OnSlot(st) {
      SlotAgree(s, m, st);
    } else if OnOwn(st) {
      OwnAgree(s, m, st);
    } else if OnTable(st) {
      TableAgree(s, m, st);
    } else if st.MapShared? {
      SharedAgree(s, m, st);
    } else if st.Clear? && st.t in s.stale {
      assert SameAt(s.own, m, InFlight(st.t, s.stale[st.t].k));
    }
  }

  /** No step ever goes through a stale entry: code that looks every entry up in the page
      tables takes exactly the steps of the machine, which looks at live entries only. */
  lemma StaleUnseen(s: State, st: Step)
    requires Inv(s)
    ensures Enabled(Seen(s), st) <==> Enabled(s, st)
  {
    if InOrder(s, st) {
      forall o | o in Looks(s, st) && Reachable(s, st, o) ensures SameAt(s.own, Table(s), o) {
        LooksLive(s, st, o);
      }
      EnabledAgree(s, Table(s), st);
    }
  }

  /** What a step looks at is not stale. */
  lemma LooksLive(s: State, st: Step, o: Owner)
    requires Inv(s) && InOrder(s, st) && o in Looks(s, st) && Reachable(s, st, o)
    ensures !IsStale(s, o) && SameAt(s.own, Table(s), o)
  {
    TableStale(s, o);
    if o.User? {
      LooksActs(s, st, o);
    }
  }

  lemma LooksActs(s: State, st: Step, o: Owner)
    requires SoleKnown(s) && StaleKnown(s) && InOrder(s, st) && o in Looks(s, st) && Reachable(s, st, o) && o.User?
    ensures Acts(s, st.t, o.pid) && st.t !in s.stale
  {
  }

  /** Process t, or the kernel on its behalf, may load from page v: its thread is not busy
      unmapping, and the page table has an entry. */
  ghost predicate CanLoad(s: State, t: nat, v: nat)
    requires Inv(s)
  {
    Acts(s, t, t) && t !in s.stale && User(t, v) in Table(s)
  }

  /** What it finds there. */
  ghost function Loaded(s: State, t: nat, v: nat): Page
    requires Inv(s) && CanLoad(s, t, v)
  {
    LiveEntry(s, t, t, v);
    s.mem[Table(s)[User(t, v)].ppn]
  }

  /** Steps on a slot change neither who acts on what nor where a thread is in its code. */
  lemma SlotStepRoles(s: State, st: Step)
    requires Inv(s) && Enabled(s, st) && OnSlot(st)
    ensures Next(s, st).stale == s.stale && Next(s, st).sole == s.sole && Next(s, st).actor == s.actor
  {
  }

  lemma OtherStepStale(s: State, st: Step)
    requires Inv(s) && Enabled(s, st) && !st.Unmap? && !st.Clear?
    ensures Next(s, st).stale == s.stale
  {
    if OnSlot(st) {
      SlotStepRoles(s, st);
    }
  }

  lemma StaleChanges(s: State, st: Step, t: nat)
    requires Inv(s) && Enabled(s, st)
    ensures t in Next(s, st).stale <==>
              if st.t == t && st.Unmap? then true else if st.t == t && st.Clear? then false else t in s.stale
    ensures st.t != t && t in s.stale ==> Next(s, st).stale[t] == s.stale[t]
  {
    if st.Unmap? {
      assert Next(s, st).stale.Keys == s.stale.Keys + {st.t};
    } else if st.Clear? {
      assert Next(s, st).stale == s.stale - {st.t};
    } else {
      OtherStepStale(s, st);
    }
  }

  /** Whether the last of thread t's steps Unmap and Clear is an Unmap. */
  predicate Opens(t: nat, steps: seq<Step>, open: bool)
    decreases |steps|
  {
    if steps == [] then open
    else Opens(t, steps[1..],
               if steps[0].t == t && steps[0].Unmap? then true
               else if steps[0].t == t && steps[0].Clear? then false
               else open)
  }

  /** In every run, a thread has a stale entry exactly between its Unmap and its Clear. */
  lemma {:induction false} StaleExactly(s: State, steps: seq<Step>, t: nat)
    requires Inv(s) && Legal(s, steps)
    ensures t in After(s, steps).stale <==> Opens(t, steps, t in s.stale)
    decreases |steps|
  {
    if steps != [] {
      StepKeepsInv(s, steps[0]);
      StaleChanges(s, steps[0], t);
      StaleExactly(Next(s, steps[0]), steps[1..], t);
    }
  }

  /** In between, all the thread does is kfree, and it clears the entry only after that. */
  lemma WindowOrder(s: State, st: Step)
    requires Inv(s) && Enabled(s, st) && st.t in s.stale
    ensures var k := s.stale[st.t].k;
            (st.Drop? && st.k == k) || (st.Fill? && st.k == k) || (st.Push? && st.k == k)
            || (st.Clear? && !Holds(s, st.t, k))
  {
  }
}
