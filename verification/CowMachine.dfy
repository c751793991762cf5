/** Copy-on-write memory as a machine of atomic steps.

    A step is what one kernel thread, or the user code of one process, does without
    another being able to interfere: one locked section of kalloc.c, one write of a page
    table entry, one unlocked read of a count, one memory access. Any thread may take any
    enabled step at any time, so the runs of the machine include every interleaving of
    fork, store faults, copyout, sbrk and exit on any number of processors. */
module CowMachine {
  import opened Params

  type Page = p: seq<int> | |p| == PGSIZE witness seq(PGSIZE, i => 0)

  /** Who refers to a page: a page table entry of a process, or slot k of a kernel thread. */
  datatype Owner = User(pid: nat, vpn: nat) | InFlight(tid: nat, k: nat)

  /** How: through a PTE; as a page off the free list whose count is zero; as a newly
      counted page nobody else knows; or as one counted reference among possibly several. */
  datatype Holding =
    | Pte(ppn: nat, w: bool, cow: bool, u: bool)
    | Raw(ppn: nat)
    | Fresh(ppn: nat)
    | Shared(ppn: nat)

  /** `actor[pid]` is the thread that may touch pid's page table: pid itself, the parent
      while fork builds it, or whoever reaps it. `sole[t]` is the page whose count thread
      t has read as 1 in a store fault. `stale[t]` is the entry thread t is unmapping: its
      reference is being given back to kfree, but the entry is still in the page table.
      `own` has the other, live entries. `leaked[p]` counts references to p that a failed
      fork took and never gave back, and `lost[t]` those that thread t did not give back. */
  datatype State = State(
    mem: seq<Page>, cnt: seq<int>, free: seq<nat>,
    own: map<Owner, Holding>,
    actor: map<nat, nat>, sole: map<nat, nat>, stale: map<nat, Stale>, leaked: seq<nat>, lost: map<nat, nat>)

  /** A page table entry under unmapping, and the slot that holds its reference. */
  datatype Stale = Stale(pid: nat, vpn: nat, k: nat, pte: Holding)

  datatype Step =
    | Pop(t: nat, k: nat)                                  // kalloc, under kmem.lock
    | SetCount(t: nat, k: nat)                             // kalloc, under reference_lock
    | Drop(t: nat, k: nat)                                 // kfree, under reference_lock
    | Push(t: nat, k: nat)                                 // kfree, under kmem.lock
    | Fill(t: nat, k: nat, data: Page)                     // memset or memmove to a private page
    | MapNew(t: nat, k: nat, pid: nat, v: nat, w: bool, u: bool) // mappages of a new page
    | SetCow(t: nat, pid: nat, v: nat)                     // declarations, setting the COW bit
    | ClearW(t: nat, pid: nat, v: nat)                     // declarations, clearing the W bit
    | Declare(t: nat, k: nat, pid: nat, v: nat)            // declarations, the count
    | MapShared(t: nat, k: nat, pid: nat, v: nat, child: nat) // uvmcopy's mappages
    | Leak(t: nat, k: nat)                                 // uvmcopy's mappages failing
    | Unmap(t: nat, k: nat, pid: nat, v: nat)              // uvmunmap, calling kfree on an entry's page
    | Clear(t: nat)                                        // uvmunmap, zeroing that entry after kfree
    | Test(t: nat, v: nat)                                 // reading ref_cnt == 1, no lock held
    | Unmark(t: nat, v: nat)                               // clearing that entry's COW bit
    | Claim(t: nat, v: nat)                                // setting its W bit
    | Replace(t: nat, k: nat, k': nat, v: nat)             // pointing the PTE at the copy
    | Write(t: nat, v: nat, off: nat, bytes: seq<int>)     // a store, or copyout's memmove
    | Spawn(t: nat, pid: nat)                              // allocproc
    | Handover(t: nat, pid: nat, heir: nat)                // end of fork, or exit

  predicate Sharable(h: Holding) {
    h.Shared? || (h.Pte? && h.cow && !h.w)
  }

  /** The owners whose references to p are counted. */
  ghost function Counts(own: map<Owner, Holding>, p: nat): set<Owner> {
    set o | o in own && own[o].ppn == p && !own[o].Raw?
  }

  ghost predicate Sized(s: State) {
    |s.mem| == |s.cnt| == |s.leaked|
  }

  /** If two owners have the same page, neither may write it. */
  predicate Compatible(own: map<Owner, Holding>, o: Owner, o': Owner)
    requires o in own && o' in own
  {
    o != o' && own[o].ppn == own[o'].ppn ==> Sharable(own[o]) && Sharable(own[o'])
  }

  ghost predicate Exclusive(own: map<Owner, Holding>) {
    forall o, o' {:trigger Compatible(own, o, o')} :: o in own && o' in own ==> Compatible(own, o, o')
  }

  /** Nobody else has o's page. */
  ghost predicate Alone(own: map<Owner, Holding>, o: Owner) {
    o in own && forall o' :: o' in own && own[o'].ppn == own[o].ppn ==> o' == o
  }

  ghost predicate FreeListed(s: State) {
    && (forall i :: 0 <= i < |s.free| ==> s.free[i] < |s.cnt|)
    && (forall i, j :: 0 <= i < j < |s.free| ==> s.free[i] != s.free[j])
    && (forall o :: o in s.own ==> s.own[o].ppn !in s.free)
  }

  /** A page nobody has counted yet, on the free list or between it and its user, has count 0. */
  ghost predicate Idle(s: State) {
    && (forall i :: 0 <= i < |s.free| ==> s.free[i] < |s.cnt| && s.cnt[s.free[i]] == 0)
    && (forall o :: o in s.own && s.own[o].Raw? ==> s.own[o].ppn < |s.cnt| && s.cnt[s.own[o].ppn] == 0)
  }

  /** Every count is the number of counted references, plus what failed forks leaked. */
  ghost predicate Accounted(s: State)
    requires Sized(s)
  {
    forall p :: 0 <= p < |s.cnt| ==> s.cnt[p] == |Counts(s.own, p)| + s.leaked[p]
  }

  ghost predicate Typed(s: State) {
    && (forall o :: o in s.own ==> s.own[o].ppn < |s.cnt| && (o.User? <==> s.own[o].Pte?))
    && (forall o :: o in s.own && o.User? ==> o.pid in s.actor)
  }

  /** A thread that has read its page's count as 1 is the page's only owner, and the
      count is still 1. */
  ghost predicate SoleKnown(s: State) {
    forall t :: t in s.sole ==>
      && t in s.actor && s.actor[t] == t && Alone(s.own, User(t, s.sole[t]))
      && CountIsOne(s, User(t, s.sole[t]))
  }

  predicate CountIsOne(s: State, o: Owner) {
    o in s.own && s.own[o].ppn < |s.cnt| && s.cnt[s.own[o].ppn] == 1
  }

  /** A thread unmaps only entries of a table it acts on, and they are no longer live. */
  ghost predicate StaleKnown(s: State) {
    forall t :: t in s.stale ==>
      && t !in s.sole && Acts(s, t, s.stale[t].pid)
      && User(s.stale[t].pid, s.stale[t].vpn) !in s.own
  }

  ghost predicate Inv(s: State) {
    && Sized(s) && Typed(s) && FreeListed(s) && Idle(s) && Exclusive(s.own) && Accounted(s)
    && SoleKnown(s) && StaleKnown(s)
  }

  predicate Acts(s: State, t: nat, pid: nat) {
    pid in s.actor && s.actor[pid] == t
  }

  predicate Holds(s: State, t: nat, k: nat) {
    InFlight(t, k) in s.own
  }

  /** A thread takes its steps in the order of the code: after `Test` come `Unmark` and
      `Claim`, and after `Unmap` comes kfree and then `Clear`. */
  predicate InOrder(s: State, st: Step) {
    && (st.t in s.sole ==> st.Unmark? || st.Claim?)
    && (st.t in s.stale ==>
          st.Clear? || ((st.Drop? || st.Fill? || st.Push?) && st.k == s.stale[st.t].k))
  }

  /** When the code takes a step; `Claim` relies on `Test` alone and looks at no count. */
  predicate Enabled(s: State, st: Step) {
    && InOrder(s, st)
    && match st
       case Pop(t, k) => !Holds(s, t, k) && |s.free| > 0
       case SetCount(t, k) => Holds(s, t, k) && s.own[InFlight(t, k)].Raw?
       case Drop(t, k) => Holds(s, t, k) && !s.own[InFlight(t, k)].Raw?
       case Push(t, k) => Holds(s, t, k) && s.own[InFlight(t, k)].Raw?
       case Fill(t, k, _) => Holds(s, t, k) && !s.own[InFlight(t, k)].Shared?
       case MapNew(t, k, pid, v, _, _) =>
         Holds(s, t, k) && s.own[InFlight(t, k)].Fresh? && Acts(s, t, pid) && User(pid, v) !in s.own
       case SetCow(t, pid, v) => Acts(s, t, pid) && User(pid, v) in s.own
       case ClearW(t, pid, v) =>
         Acts(s, t, pid) && User(pid, v) in s.own && s.own[User(pid, v)].Pte? && s.own[User(pid, v)].cow
       case Declare(t, k, pid, v) =>
         !Holds(s, t, k) && Acts(s, t, pid) && User(pid, v) in s.own && Sharable(s.own[User(pid, v)])
       case MapShared(t, k, pid, v, child) =>
         && Holds(s, t, k) && s.own[InFlight(t, k)].Shared?
         && Acts(s, t, pid) && Acts(s, t, child) && User(child, v) !in s.own
         && User(pid, v) in s.own && Sharable(s.own[User(pid, v)])
         && s.own[User(pid, v)].ppn == s.own[InFlight(t, k)].ppn
       case Leak(t, k) => Holds(s, t, k) && s.own[InFlight(t, k)].Shared?
       case Unmap(t, k, pid, v) => !Holds(s, t, k) && Acts(s, t, pid) && User(pid, v) in s.own
       case Clear(t) => t in s.stale && !Holds(s, t, s.stale[t].k)
       case Test(t, v) =>
         && Acts(s, t, t) && User(t, v) in s.own && s.own[User(t, v)].Pte? && s.own[User(t, v)].cow
         && s.own[User(t, v)].ppn < |s.cnt| && s.cnt[s.own[User(t, v)].ppn] == 1
       case Unmark(t, v) => t in s.sole && s.sole[t] == v && User(t, v) in s.own
       case Claim(t, v) =>
         && t in s.sole && s.sole[t] == v
         && User(t, v) in s.own && s.own[User(t, v)].Pte? && !s.own[User(t, v)].cow
       case Replace(t, k, k', v) =>
         && Holds(s, t, k) && s.own[InFlight(t, k)].Fresh? && k != k' && !Holds(s, t, k')
         && Acts(s, t, t) && User(t, v) in s.own && s.own[User(t, v)].Pte? && s.own[User(t, v)].cow
         && s.own[User(t, v)].ppn < |s.mem| && s.own[InFlight(t, k)].ppn < |s.mem|
         && s.mem[s.own[InFlight(t, k)].ppn] == s.mem[s.own[User(t, v)].ppn]
       case Write(t, v, off, bytes) =>
         && Acts(s, t, t) && User(t, v) in s.own && s.own[User(t, v)].Pte? && !Sharable(s.own[User(t, v)])
         && off + |bytes| <= PGSIZE
       case Spawn(t, pid) => pid !in s.actor
       case Handover(t, pid, _) => Acts(s, t, pid) && pid !in s.sole
  }

  function Junk(): Page {
    seq(PGSIZE, i => 5)
  }

  function Splice(p: Page, off: nat, bytes: seq<int>): Page
    requires off + |bytes| <= PGSIZE
  {
    p[..off] + bytes + p[off + |bytes|..]
  }

  function PageOf(s: State, o: Owner): nat
    requires o in s.own
  {
    s.own[o].ppn
  }

  function Next(s: State, st: Step): State
    requires Inv(s) && Enabled(s, st)
  {
    match st
    case Pop(t, k) =>
      s.(free := s.free[1..], own := s.own[InFlight(t, k) := Raw(s.free[0])], mem := s.mem[s.free[0] := Junk()])
    case SetCount(t, k) =>
      s.(cnt := s.cnt[PageOf(s, InFlight(t, k)) := 1], own := s.own[InFlight(t, k) := Fresh(PageOf(s, InFlight(t, k)))])
    case Drop(t, k) => Dropped(s, t, k, PageOf(s, InFlight(t, k)))
    case Push(t, k) =>
      s.(free := [PageOf(s, InFlight(t, k))] + s.free, own := s.own - {InFlight(t, k)})
    case Fill(t, k, data) =>
      s.(mem := s.mem[PageOf(s, InFlight(t, k)) := data])
    case MapNew(t, k, pid, v, w, u) =>
      s.(own := (s.own - {InFlight(t, k)})[User(pid, v) := Pte(PageOf(s, InFlight(t, k)), w, false, u)])
    case SetCow(t, pid, v) =>
      s.(own := s.own[User(pid, v) := s.own[User(pid, v)].(cow := true)])
    case ClearW(t, pid, v) =>
      s.(own := s.own[User(pid, v) := s.own[User(pid, v)].(w := false)])
    case Declare(t, k, pid, v) => Declared(s, t, k, PageOf(s, User(pid, v)))
    case MapShared(t, k, pid, v, child) =>
      s.(own := (s.own - {InFlight(t, k)})[User(child, v) := s.own[User(pid, v)]])
    case Leak(t, k) => Leaked(s, t, k, PageOf(s, InFlight(t, k)))
    case Unmap(t, k, pid, v) =>
      Detached(s, t, k, pid, v).(stale := s.stale[t := Stale(pid, v, k, s.own[User(pid, v)])])
    case Clear(t) =>
      s.(stale := s.stale - {t})
    case Test(t, v) =>
      s.(sole := s.sole[t := v])
    case Unmark(t, v) =>
      s.(own := s.own[User(t, v) := s.own[User(t, v)].(cow := false)])
    case Claim(t, v) =>
      s.(own := s.own[User(t, v) := s.own[User(t, v)].(w := true)], sole := s.sole - {t})
    case Replace(t, k, k', v) =>
      s.(own := Replaced(s.own, t, k, k', v))
    case Write(t, v, off, bytes) => Written(s, PageOf(s, User(t, v)), off, bytes)
    case Spawn(t, pid) =>
      s.(actor := s.actor[pid := t])
    case Handover(t, pid, heir) =>
      s.(actor := s.actor[pid := heir])
  }

  /** The reference of a page table entry moved to slot k of a thread. */
  function Detached(s: State, t: nat, k: nat, pid: nat, v: nat): State
    requires User(pid, v) in s.own
  {
    s.(own := (s.own - {User(pid, v)})[InFlight(t, k) := Shared(PageOf(s, User(pid, v)))])
  }

  /** kfree's locked part: the last reference makes the page ready for the free list. */
  function Dropped(s: State, t: nat, k: nat, p: nat): State
    requires p < |s.cnt|
  {
    if s.cnt[p] <= 1 then s.(cnt := s.cnt[p := 0], own := s.own[InFlight(t, k) := Raw(p)])
    else s.(cnt := s.cnt[p := s.cnt[p] - 1], own := s.own - {InFlight(t, k)})
  }

  function Declared(s: State, t: nat, k: nat, p: nat): State
    requires p < |s.cnt|
  {
    s.(cnt := s.cnt[p := s.cnt[p] + 1], own := s.own[InFlight(t, k) := Shared(p)])
  }

  /** How many references thread t has failed to give back. */
  function Lost(s: State, t: nat): nat {
    if t in s.lost then s.lost[t] else 0
  }

  function Leaked(s: State, t: nat, k: nat, p: nat): State
    requires p < |s.leaked|
  {
    s.(own := s.own - {InFlight(t, k)}, leaked := s.leaked[p := s.leaked[p] + 1],
       lost := s.lost[t := Lost(s, t) + 1])
  }

  function Written(s: State, p: nat, off: nat, bytes: seq<int>): State
    requires p < |s.mem| && off + |bytes| <= PGSIZE
  {
    s.(mem := s.mem[p := Splice(s.mem[p], off, bytes)])
  }

  function Replaced(own: map<Owner, Holding>, t: nat, k: nat, k': nat, v: nat): map<Owner, Holding>
    requires InFlight(t, k) in own && User(t, v) in own && own[User(t, v)].Pte?
  {
    (own - {InFlight(t, k)})
    [User(t, v) := own[User(t, v)].(ppn := own[InFlight(t, k)].ppn, w := true, cow := false)]
    [InFlight(t, k') := Shared(own[User(t, v)].ppn)]
  }

  /** The machine after kinit: every page free, nothing mapped. */
  function Boot(mem: seq<Page>): State {
    State(mem, seq(|mem|, i => 0), seq(|mem|, i => i), map[], map[], map[], map[], seq(|mem|, i => 0), map[])
  }

  lemma BootInv(mem: seq<Page>)
    ensures Inv(Boot(mem))
  {
    var s := Boot(mem);
    forall p | 0 <= p < |s.cnt| ensures s.cnt[p] == |Counts(s.own, p)| + s.leaked[p] {
      assert Counts(s.own, p) == {};
    }
  }
}
