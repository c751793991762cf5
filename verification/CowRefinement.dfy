/** Copy-on-write refines eager copying: what a process finds in its memory is what it
    would find under a kernel that copied every page at fork. */
module CowRefinement {
  import opened Collections
  import opened Params
  import opened CowMachine
  import opened CowSafety
  import opened CowWindow

  /** The memory of all processes, with no sharing: each mapped page has its own contents. */
  type Memory = map<Owner, Page>

  ghost function Abs(s: State): Memory
    requires Inv(s)
  {
    map o | o in s.own && o.User? :: s.mem[s.own[o].ppn]
  }

  /** What an eager kernel does to memory. */
  datatype EagerStep =
    | Nothing
    | Create(va: Owner, data: Page)
    | Copy(from: Owner, to: Owner)
    | Delete(va: Owner)
    | Update(va: Owner, off: nat, bytes: seq<int>)

  ghost predicate Possible(m: Memory, e: EagerStep) {
    match e
    case Copy(from, _) => from in m
    case Update(va, off, bytes) => va in m && off + |bytes| <= PGSIZE
    case _ => true
  }

  ghost function Eager(m: Memory, e: EagerStep): Memory
    requires Possible(m, e)
  {
    match e
    case Nothing => m
    case Create(va, data) => m[va := data]
    case Copy(from, to) => m[to := m[from]]
    case Delete(va) => m - {va}
    case Update(va, off, bytes) => m[va := Splice(m[va], off, bytes)]
  }

  /** The eager counterpart of a step: fork copies a page where the machine shares it, and
      marking, counting, testing, claiming and replacing pages are nothing at all. */
  ghost function Image(s: State, st: Step): EagerStep
    requires Inv(s) && Enabled(s, st)
  {
    match st
    case MapNew(t, k, pid, v, _, _) => Create(User(pid, v), s.mem[PageOf(s, InFlight(t, k))])
    case MapShared(t, k, pid, v, child) => Copy(User(pid, v), User(child, v))
    case Unmap(t, k, pid, v) => Delete(User(pid, v))
    case Write(t, v, off, bytes) => Update(User(t, v), off, bytes)
    case _ => Nothing
  }

  /** Changing the contents of a page nobody maps changes no process's memory. */
  lemma UnmappedPage(s: State, p: nat, data: Page)
    requires Inv(s) && p < |s.mem|
    requires forall o :: o in s.own && o.User? ==> s.own[o].ppn != p
    ensures forall o :: o in s.own && o.User? ==> s.mem[p := data][s.own[o].ppn] == s.mem[s.own[o].ppn]
  {
  }

  lemma SameMemory(s: State, s': State)
    requires Inv(s) && Inv(s')
    requires forall o: Owner :: o.User? ==> (o in s.own <==> o in s'.own)
    requires forall o: Owner :: o.User? && o in s.own ==> s'.own[o].ppn == s.own[o].ppn
    requires forall o: Owner :: o.User? && o in s.own ==> s'.mem[s.own[o].ppn] == s.mem[s.own[o].ppn]
    ensures Abs(s') == Abs(s)
  {
  }

  /** The step does to every process's memory what its eager counterpart does. */
  ghost predicate Refines(s: State, st: Step)
    requires Inv(s) && Enabled(s, st)
  {
    && Inv(Next(s, st)) && Possible(Abs(s), Image(s, st))
    && Abs(Next(s, st)) == Eager(Abs(s), Image(s, st))
  }

  lemma PopRefines(s: State, t: nat, k: nat)
    requires Inv(s) && Enabled(s, Pop(t, k))
    ensures Refines(s, Pop(t, k))
  {
    PopKeeps(s, t, k);
    UnmappedPage(s, s.free[0], Junk());
    SameMemory(s, Next(s, Pop(t, k)));
  }

  lemma SetCountRefines(s: State, t: nat, k: nat)
    requires Inv(s) && Enabled(s, SetCount(t, k))
    ensures Refines(s, SetCount(t, k))
  {
    SetCountKeeps(s, t, k);
  }

  /** Giving a reference back leaves the entries of the page tables alone. */
  lemma DropUsers(s: State, t: nat, k: nat, p: nat, o: Owner)
    requires p < |s.cnt| && o.User?
    ensures var s' := Dropped(s, t, k, p);
            s'.mem == s.mem && (o in s'.own <==> o in s.own) && (o in s.own ==> s'.own[o] == s.own[o])
  {
  }

  lemma DropRefines(s: State, t: nat, k: nat)
    requires Inv(s) && Enabled(s, Drop(t, k))
    ensures Refines(s, Drop(t, k))
  {
    DropKeeps(s, t, k);
    var s' := Next(s, Drop(t, k));
    assert Abs(s') == Abs(s) by {
      forall o: Owner | o.User? ensures o in s'.own <==> o in s.own
        ensures o in s.own ==> s'.own[o] == s.own[o] && s'.mem[s.own[o].ppn] == s.mem[s.own[o].ppn]
      {
        DropUsers(s, t, k, PageOf(s, InFlight(t, k)), o);
      }
    }
  }

  lemma PushRefines(s: State, t: nat, k: nat)
    requires Inv(s) && Enabled(s, Push(t, k))
    ensures Refines(s, Push(t, k))
  {
    PushKeeps(s, t, k);
  }

  lemma FillRefines(s: State, t: nat, k: nat, data: Page)
    requires Inv(s) && Enabled(s, Fill(t, k, data))
    ensures Refines(s, Fill(t, k, data))
  {
    FillKeeps(s, t, k, data);
    WriterAlone(s.own, InFlight(t, k));
    UnmappedPage(s, s.own[InFlight(t, k)].ppn, data);
  }

  lemma MapNewRefines(s: State, t: nat, k: nat, pid: nat, v: nat, w: bool, u: bool)
    requires Inv(s) && Enabled(s, MapNew(t, k, pid, v, w, u))
    ensures Refines(s, MapNew(t, k, pid, v, w, u))
  {
    MapNewKeeps(s, t, k, pid, v, w, u);
  }

  lemma SetCowRefines(s: State, t: nat, pid: nat, v: nat)
    requires Inv(s) && Enabled(s, SetCow(t, pid, v))
    ensures Refines(s, SetCow(t, pid, v))
  {
    SetCowKeeps(s, t, pid, v);
  }

  lemma ClearWRefines(s: State, t: nat, pid: nat, v: nat)
    requires Inv(s) && Enabled(s, ClearW(t, pid, v))
    ensures Refines(s, ClearW(t, pid, v))
  {
    ClearWKeeps(s, t, pid, v);
  }

  lemma DeclareRefines(s: State, t: nat, k: nat, pid: nat, v: nat)
    requires Inv(s) && Enabled(s, Declare(t, k, pid, v))
    ensures Refines(s, Declare(t, k, pid, v))
  {
    DeclareKeeps(s, t, k, pid, v);
  }

  lemma MapSharedRefines(s: State, t: nat, k: nat, pid: nat, v: nat, child: nat)
    requires Inv(s) && Enabled(s, MapShared(t, k, pid, v, child))
    ensures Refines(s, MapShared(t, k, pid, v, child))
  {
    MapSharedKeeps(s, t, k, pid, v, child);
  }

  lemma LeakRefines(s: State, t: nat, k: nat)
    requires Inv(s) && Enabled(s, Leak(t, k))
    ensures Refines(s, Leak(t, k))
  {
    LeakKeeps(s, t, k);
  }

  lemma UnmapRefines(s: State, t: nat, k: nat, pid: nat, v: nat)
    requires Inv(s) && Enabled(s, Unmap(t, k, pid, v))
    ensures Refines(s, Unmap(t, k, pid, v))
  {
    UnmapKeeps(s, t, k, pid, v);
  }

  lemma ClearRefines(s: State, t: nat)
    requires Inv(s) && Enabled(s, Clear(t))
    ensures Refines(s, Clear(t))
  {
    ClearKeeps(s, t);
  }

  lemma TestRefines(s: State, t: nat, v: nat)
    requires Inv(s) && Enabled(s, Test(t, v))
    ensures Refines(s, Test(t, v))
  {
    TestKeeps(s, t, v);
  }

  lemma UnmarkRefines(s: State, t: nat, v: nat)
    requires Inv(s) && Enabled(s, Unmark(t, v))
    ensures Refines(s, Unmark(t, v))
  {
    UnmarkKeeps(s, t, v);
    SameMemory(s, Next(s, Unmark(t, v)));
  }

  lemma ClaimRefines(s: State, t: nat, v: nat)
    requires Inv(s) && Enabled(s, Claim(t, v))
    ensures Refines(s, Claim(t, v))
  {
    ClaimKeeps(s, t, v);
    SameMemory(s, Next(s, Claim(t, v)));
  }

  lemma ReplaceRefines(s: State, t: nat, k: nat, k': nat, v: nat)
    requires Inv(s) && Enabled(s, Replace(t, k, k', v))
    ensures Refines(s, Replace(t, k, k', v))
  {
    ReplaceKeeps(s, t, k, k', v);
    var s' := Next(s, Replace(t, k, k', v));
    assert Abs(s') == Abs(s) by {
      forall o: Owner | o.User? ensures o in s'.own <==> o in s.own
        ensures o in s.own ==> s'.mem[s'.own[o].ppn] == s.mem[s.own[o].ppn]
      {
        ReplacedUsers(s.own, t, k, k', v, o);
      }
    }
  }

  lemma ReplacedUsers(own: map<Owner, Holding>, t: nat, k: nat, k': nat, v: nat, o: Owner)
    requires InFlight(t, k) in own && User(t, v) in own && own[User(t, v)].Pte? && o.User?
    ensures var own' := Replaced(own, t, k, k', v);
            && (o in own' <==> o in own)
            && (o in own ==> own'[o].ppn == if o == User(t, v) then own[InFlight(t, k)].ppn else own[o].ppn)
  {
  }

  lemma WriteRefines(s: State, t: nat, v: nat, off: nat, bytes: seq<int>)
    requires Inv(s) && Enabled(s, Write(t, v, off, bytes))
    ensures Refines(s, Write(t, v, off, bytes))
  {
    WriteKeeps(s, t, v, off, bytes);
    WriterAlone(s.own, User(t, v));
  }

  lemma SpawnRefines(s: State, t: nat, pid: nat)
    requires Inv(s) && Enabled(s, Spawn(t, pid))
    ensures Refines(s, Spawn(t, pid))
  {
    SpawnKeeps(s, t, pid);
  }

  lemma HandoverRefines(s: State, t: nat, pid: nat, heir: nat)
    requires Inv(s) && Enabled(s, Handover(t, pid, heir))
    ensures Refines(s, Handover(t, pid, heir))
  {
    HandoverKeeps(s, t, pid, heir);
  }

  lemma StepRefines(s: State, st: Step)
    requires Inv(s) && Enabled(s, st)
    ensures Refines(s, st)
  {
    match st
    case Pop(t, k) => PopRefines(s, t, k);
    case SetCount(t, k) => SetCountRefines(s, t, k);
    case Drop(t, k) => DropRefines(s, t, k);
    case Push(t, k) => PushRefines(s, t, k);
    case Fill(t, k, data) => FillRefines(s, t, k, data);
    case MapNew(t, k, pid, v, w, u) => MapNewRefines(s, t, k, pid, v, w, u);
    case SetCow(t, pid, v) => SetCowRefines(s, t, pid, v);
    case ClearW(t, pid, v) => ClearWRefines(s, t, pid, v);
    case Declare(t, k, pid, v) => DeclareRefines(s, t, k, pid, v);
    case MapShared(t, k, pid, v, child) => MapSharedRefines(s, t, k, pid, v, child);
    case Leak(t, k) => LeakRefines(s, t, k);
    case Unmap(t, k, pid, v) => UnmapRefines(s, t, k, pid, v);
    case Clear(t) => ClearRefines(s, t);
    case Test(t, v) => TestRefines(s, t, v);
    case Unmark(t, v) => UnmarkRefines(s, t, v);
    case Claim(t, v) => ClaimRefines(s, t, v);
    case Replace(t, k, k', v) => ReplaceRefines(s, t, k, k', v);
    case Write(t, v, off, bytes) => WriteRefines(s, t, v, off, bytes);
    case Spawn(t, pid) => SpawnRefines(s, t, pid);
    case Handover(t, pid, heir) => HandoverRefines(s, t, pid, heir);
  }

  ghost function Images(s: State, steps: seq<Step>): seq<EagerStep>
    requires Inv(s) && Legal(s, steps)
    decreases |steps|
  {
    if steps == [] then []
    else
      StepKeepsInv(s, steps[0]);
      [Image(s, steps[0])] + Images(Next(s, steps[0]), steps[1..])
  }

  /** Eager steps that can be taken one after another from m. */
  ghost predicate EagerLegal(m: Memory, es: seq<EagerStep>)
    decreases |es|
  {
    es == [] || (Possible(m, es[0]) && EagerLegal(Eager(m, es[0]), es[1..]))
  }

  ghost function EagerAfter(m: Memory, es: seq<EagerStep>): Memory
    requires EagerLegal(m, es)
    decreases |es|
  {
    if es == [] then m else EagerAfter(Eager(m, es[0]), es[1..])
  }

  /** In every run, whatever the interleaving, the eager kernel can take the corresponding
      steps, and every process's memory is then exactly what it is here. */
  lemma {:induction false} CowRefinesEager(s: State, steps: seq<Step>)
    requires Inv(s) && Legal(s, steps)
    ensures EagerLegal(Abs(s), Images(s, steps))
    ensures Abs(After(s, steps)) == EagerAfter(Abs(s), Images(s, steps))
    decreases |steps|
  {
    if steps != [] {
      StepRefines(s, steps[0]);
      CowRefinesEager(Next(s, steps[0]), steps[1..]);
      assert Images(s, steps)[1..] == Images(Next(s, steps[0]), steps[1..]);
    }
  }

  /** After any run, what a process loads through its page table is what the eager kernel
      would let it load. */
  lemma LoadsEager(s: State, steps: seq<Step>, t: nat, v: nat)
    requires Inv(s) && Legal(s, steps) && CanLoad(After(s, steps), t, v)
    ensures EagerLegal(Abs(s), Images(s, steps))
    ensures var m := EagerAfter(Abs(s), Images(s, steps));
            User(t, v) in m && Loaded(After(s, steps), t, v) == m[User(t, v)]
  {
    CowRefinesEager(s, steps);
    LiveEntry(After(s, steps), t, t, v);
  }

  /** The live page table entries that lead to page p. */
  ghost function Mappings(s: State, p: nat): set<Owner> {
    set o | o in s.own && o.User? && s.own[o].ppn == p
  }

  /** Live entries never outnumber a page's count, never lead to a free page, and are alone
      on a page they may write. */
  ghost predicate Safe(s: State) {
    && Sized(s)
    && (forall p :: 0 <= p < |s.cnt| ==> |Mappings(s, p)| <= s.cnt[p])
    && (forall i, j :: 0 <= i < j < |s.free| ==> s.free[i] != s.free[j])
    && (forall o :: o in s.own && o.User? ==> s.own[o].ppn !in s.free)
    && (forall o :: o in s.own && s.own[o].Pte? && s.own[o].w ==> Alone(s.own, o))
  }

  /** In every run: no count is below the number of live mappings, no free page is mapped by
      a live entry or listed twice, and a page writable through one is mapped by no other. A
      page table holds other than live entries only while its actor is between the kfree of
      an entry's page and the clearing of that entry. */
  lemma EveryRunSafe(s: State, steps: seq<Step>)
    requires Inv(s) && Legal(s, steps)
    ensures Safe(After(s, steps))
    ensures var r := After(s, steps);
            forall o :: o in Table(r) && o !in r.own ==>
              && o.User? && o.pid in r.actor && Opens(r.actor[o.pid], steps, r.actor[o.pid] in s.stale)
              && IsStale(r, o)
  {
    var r := After(s, steps);
    forall p | 0 <= p < |r.cnt| ensures |Mappings(r, p)| <= r.cnt[p] {
      SubsetSize(Mappings(r, p), Counts(r.own, p));
    }
    forall o | o in r.own && r.own[o].Pte? && r.own[o].w ensures Alone(r.own, o) {
      WriterAlone(r.own, o);
    }
    forall o | o in Table(r) && o !in r.own
      ensures IsStale(r, o) && Opens(r.actor[o.pid], steps, r.actor[o.pid] in s.stale)
    {
      StaleExactly(s, steps, r.actor[o.pid]);
    }
  }

  /** Every count is exactly the number of references. */
  ghost predicate Exact(s: State) {
    forall p :: 0 <= p < |s.cnt| ==> s.cnt[p] == |Counts(s.own, p)|
  }

  predicate NoLeak(steps: seq<Step>) {
    forall i :: 0 <= i < |steps| ==> !steps[i].Leak?
  }

  /** The reference a failed fork forgets is never given back: from then on the page's
      count exceeds its references and the page never reaches the free list again. */
  lemma {:induction false} LeakIsForever(s: State, steps: seq<Step>, p: nat)
    requires Inv(s) && Legal(s, steps) && p < |s.leaked| && s.leaked[p] > 0
    ensures var r := After(s, steps);
            && p < |r.cnt| && r.cnt[p] > |Counts(r.own, p)|
            && p !in r.free
    decreases |steps|
  {
    if steps != [] {
      StepKeepsInv(s, steps[0]);
      LeakedGrows(s, steps[0], p);
      LeakIsForever(Next(s, steps[0]), steps[1..], p);
    }
  }

  /** uvmcopy's error path takes exactly this step. */
  lemma FailedForkLeaks(s: State, t: nat, k: nat)
    requires Inv(s) && Enabled(s, Leak(t, k))
    ensures var p := s.own[InFlight(t, k)].ppn;
            var r := Next(s, Leak(t, k));
            r.leaked[p] > 0 && r.cnt[p] > |Counts(r.own, p)|
  {
    LeakKeeps(s, t, k);
  }

  lemma StepExact(s: State, st: Step)
    requires Inv(s) && Enabled(s, st) && Exact(s) && !st.Leak?
    ensures Exact(Next(s, st))
  {
    StepKeepsInv(s, st);
    var s' := Next(s, st);
    forall p | 0 <= p < |s'.cnt| ensures s'.cnt[p] == |Counts(s'.own, p)| {
      assert |s'.cnt| == |s'.leaked| && |s.cnt| == |s.leaked|;
      assert p < |s'.leaked|;
      SameSize(s, st);
      LeakedGrows(s, st, p);
    }
  }

  /** In every run from exact counts, all counts are exact again if and only if no fork has
      failed in its mappages. */
  lemma {:induction false} ExactUnlessLeaked(s: State, steps: seq<Step>)
    requires Inv(s) && Legal(s, steps) && Exact(s)
    ensures Exact(After(s, steps)) <==> NoLeak(steps)
    decreases |steps|
  {
    if steps != [] {
      var st, rest := steps[0], steps[1..];
      StepKeepsInv(s, st);
      assert forall i :: 1 <= i < |steps| ==> steps[i] == rest[i - 1];
      if st.Leak? {
        FailedForkLeaks(s, st.t, st.k);
        LeakIsForever(Next(s, st), rest, s.own[InFlight(st.t, st.k)].ppn);
      } else {
        StepExact(s, st);
        ExactUnlessLeaked(Next(s, st), rest);
      }
    }
  }

  /** With no reference in flight, exact counts are the numbers of mappings. */
  lemma ExactMappings(s: State, p: nat)
    requires Inv(s) && Exact(s) && p < |s.cnt| && forall o :: o in s.own ==> o.User?
    ensures s.cnt[p] == |Mappings(s, p)|
  {
    assert Mappings(s, p) == Counts(s.own, p);
  }
}
