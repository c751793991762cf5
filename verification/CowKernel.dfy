/** The copy-on-write code of kalloc.c, vm.c and trap.c, run by one kernel thread while
    other threads take arbitrary steps between its own. */
module CowKernel {
  import opened Params
  import opened CowMachine
  import opened CowSafety
  import opened CowWindow
  import opened CowIsolation

  /** Pages lo to hi - 1 of a process. */
  ghost function Pages(pid: nat, lo: nat, hi: nat): set<Owner> {
    set v: nat | lo <= v < hi :: User(pid, v)
  }

  /** o is mapped, and its page holds `data`. */
  predicate Shows(s: State, o: Owner, data: Page) {
    o in s.own && s.own[o].ppn < |s.mem| && s.mem[s.own[o].ppn] == data
  }

  function Zeros(): Page {
    seq(PGSIZE, i => 0)
  }

  const MAXVA: nat := 0x40_0000_0000

  /** Page v's contents once `bytes` have been written at address dst. */
  function Overlay(p: Page, v: nat, dst: nat, bytes: seq<int>): Page {
    seq(PGSIZE, j requires 0 <= j < PGSIZE =>
      if dst <= v * PGSIZE + j < dst + |bytes| then bytes[v * PGSIZE + j - dst] else p[j])
  }

  /** Process t's memory in s is that in s0 with `bytes` written at dst. */
  ghost predicate Overlaid(s0: State, s: State, t: nat, dst: nat, bytes: seq<int>) {
    && Inv(s0)
    && (forall v :: User(t, v) in s.own <==> User(t, v) in s0.own)
    && (forall v :: User(t, v) in s0.own ==>
          Shows(s, User(t, v), Overlay(s0.mem[s0.own[User(t, v)].ppn], v, dst, bytes)))
  }

  /** Splicing within one page extends the overlay there and nowhere else. */
  lemma OverlayStep(p: Page, v: nat, dst: nat, bytes: seq<int>, more: seq<int>)
    requires |more| > 0
    ensures var a := dst + |bytes|;
            (a + |more| - 1) / PGSIZE == a / PGSIZE ==>
              Overlay(p, v, dst, bytes + more)
              == if v == a / PGSIZE then Splice(Overlay(p, v, dst, bytes), a % PGSIZE, more)
                 else Overlay(p, v, dst, bytes)
  {
  }

  /** How many of `left` bytes fit in the page of a. */
  function PageRest(a: nat, left: nat): (n: nat)
    ensures n <= left && n <= PGSIZE - a % PGSIZE && (left > 0 ==> n > 0)
    ensures n < left ==> (a / PGSIZE + 1) * PGSIZE == a + n
  {
    if PGSIZE - a % PGSIZE > left then left else PGSIZE - a % PGSIZE
  }

  lemma OverlaidNothing(s: State, t: nat, dst: nat)
    requires Inv(s)
    ensures Overlaid(s, s, t, dst, [])
  {
    assert forall v :: User(t, v) in s.own ==>
           Overlay(s.mem[s.own[User(t, v)].ppn], v, dst, []) == s.mem[s.own[User(t, v)].ppn];
  }

  /** What one turn of copyout does to page v: a piece of the data if it is the page of
      dst + i and the process lives, nothing otherwise. */
  lemma OverlaidPage(p: Page, v: nat, dst: nat, src: seq<int>, i: nat, n: nat, alive: bool, was: Page, now: Page)
    requires i < |src| && 0 < n <= |src| - i && n <= PGSIZE - (dst + i) % PGSIZE
    requires was == Overlay(p, v, dst, src[..i])
    requires now == if v == (dst + i) / PGSIZE && alive then Splice(was, (dst + i) % PGSIZE, src[i..i + n]) else was
    ensures now == Overlay(p, v, dst, src[..if alive then i + n else i])
  {
    assert src[..i + n] == src[..i] + src[i..i + n];
    OverlayStep(p, v, dst, src[..i], src[i..i + n]);
  }

  lemma OverlaidTurn(s0: State, b: State, s: State, t: nat, dst: nat, src: seq<int>, i: nat, n: nat, alive: bool)
    requires i < |src| && 0 < n <= |src| - i
    requires Inv(s0) && Inv(b) && Acts(b, t, t) && Overlaid(s0, b, t, dst, src[..i])
    requires n <= PGSIZE - (dst + i) % PGSIZE
    requires User(t, (dst + i) / PGSIZE) in b.own
    requires Kept(t, b, s, {User(t, (dst + i) / PGSIZE), InFlight(t, 0), InFlight(t, 1)})
    requires var v := (dst + i) / PGSIZE;
             var data := b.mem[b.own[User(t, v)].ppn];
             Shows(s, User(t, v), if alive then Splice(data, (dst + i) % PGSIZE, src[i..i + n]) else data)
    ensures Overlaid(s0, s, t, dst, src[..if alive then i + n else i])
  {
    forall v ensures User(t, v) in s.own <==> User(t, v) in s0.own
      ensures User(t, v) in s0.own ==>
                Shows(s, User(t, v), Overlay(s0.mem[s0.own[User(t, v)].ppn], v, dst, src[..if alive then i + n else i]))
    {
      if v != (dst + i) / PGSIZE {
        assert Unchanged(b, s, User(t, v));
      }
      if User(t, v) in s0.own {
        OverlaidPage(s0.mem[s0.own[User(t, v)].ppn], v, dst, src, i, n, alive,
                     b.mem[b.own[User(t, v)].ppn], s.mem[s.own[User(t, v)].ppn]);
      }
    }
  }

  lemma OnePageChanged(s0: State, s: State, t: nat, addr: nat, bytes: seq<int>)
    requires Inv(s0) && Acts(s0, t, t) && |bytes| <= 1 && User(t, addr / PGSIZE) in s0.own
    requires Kept(t, s0, s, {User(t, addr / PGSIZE), InFlight(t, 0), InFlight(t, 1)})
    requires var data := s0.mem[s0.own[User(t, addr / PGSIZE)].ppn];
             Shows(s, User(t, addr / PGSIZE), Splice(data, addr % PGSIZE, bytes))
    ensures Overlaid(s0, s, t, addr, bytes)
  {
    forall v ensures User(t, v) in s.own <==> User(t, v) in s0.own
      ensures User(t, v) in s0.own ==>
                Shows(s, User(t, v), Overlay(s0.mem[s0.own[User(t, v)].ppn], v, addr, bytes))
    {
      if v != addr / PGSIZE {
        assert Unchanged(s0, s, User(t, v));
      }
      if User(t, v) in s0.own {
        var p := s0.mem[s0.own[User(t, v)].ppn];
        assert Overlay(p, v, addr, bytes) == if v == addr / PGSIZE then Splice(p, addr % PGSIZE, bytes) else p;
      }
    }
  }

  /** Of the pages lo to hi - 1, those a change left out are as they were. */
  lemma OthersShown(a: State, b: State, t: nat, x: set<Owner>, lo: nat, hi: nat, v: nat)
    requires Kept(t, a, b, x) && Acts(a, t, t)
    requires forall i :: lo <= i < hi && i != v ==> User(t, i) !in x
    requires InFlight(t, 0) !in x || InFlight(t, 1) !in x
    ensures forall i :: lo <= i < hi && i != v ==> Unchanged(a, b, User(t, i))
    ensures forall k :: InFlight(t, k) !in x ==> Unchanged(a, b, InFlight(t, k))
  {
  }

  /** Page i of t is shared with the child: both entries are t's old one, copy-on-write and not
      writable. */
  ghost predicate SharedEntry(s0: State, s: State, t: nat, child: nat, i: nat) {
    && Marked(s0, s, t, i) && User(child, i) in s.own && s.own[User(child, i)] == s.own[User(t, i)]
  }

  /** Page i of t is as it was, but for being copy-on-write and not writable. */
  ghost predicate Marked(s0: State, s: State, t: nat, i: nat) {
    && User(t, i) in s0.own && s0.own[User(t, i)].Pte? && User(t, i) in s.own
    && s.own[User(t, i)] == s0.own[User(t, i)].(w := false, cow := true)
  }

  /** uvmcopy after v turns, having started from s0: the first v pages are shared, the rest are
      as they were. */
  ghost predicate Copying(s0: State, s: State, t: nat, child: nat, n: nat, v: nat, image: seq<Page>) {
    && Ready(s, t) && Acts(s, t, t) && Acts(s, t, child) && |image| == n && v <= n
    && !Holds(s, t, 0) && !Holds(s, t, 1)
    && (forall i :: 0 <= i < n ==> Shows(s, User(t, i), image[i]))
    && (forall i :: 0 <= i < v ==> Shows(s, User(child, i), image[i]) && SharedEntry(s0, s, t, child, i))
    && (forall i :: v <= i < n ==> User(child, i) !in s.own && Unchanged(s0, s, User(t, i)))
  }

  /** A turn that deals with page v leaves every other page of both processes alone. */
  lemma TurnOthers(a: State, b: State, t: nat, child: nat, v: nat, i: nat)
    requires Kept(t, a, b, {User(t, v), User(child, v), InFlight(t, 0)}) && i != v
    requires Acts(a, t, t) && Acts(a, t, child)
    ensures Unchanged(a, b, User(t, i)) && Unchanged(a, b, User(child, i))
  {
  }

  lemma CopyingTurn(s0: State, a: State, b: State, t: nat, child: nat, n: nat, v: nat, image: seq<Page>)
    requires Copying(s0, a, t, child, n, v, image) && v < n && t != child
    requires Kept(t, a, b, {User(t, v), User(child, v), InFlight(t, 0)})
    requires !Holds(b, t, 0) && Shows(b, User(t, v), image[v])
    requires Shows(b, User(child, v), image[v]) && SharedEntry(a, b, t, child, v)
    ensures Copying(s0, b, t, child, n, v + 1, image)
  {
    assert Unchanged(a, b, InFlight(t, 1)) && Unchanged(s0, a, User(t, v));
    forall i | 0 <= i < n && i != v
      ensures Shows(b, User(t, i), image[i]) && Unchanged(a, b, User(child, i)) && Unchanged(a, b, User(t, i))
    {
      TurnOthers(a, b, t, child, v, i);
    }
    forall i | 0 <= i < v ensures SharedEntry(s0, b, t, child, i) {
      assert SharedEntry(s0, a, t, child, i) && Unchanged(a, b, User(t, i)) && Unchanged(a, b, User(child, i));
    }
    forall i | v < i < n ensures Unchanged(s0, b, User(t, i)) {
      assert Unchanged(s0, a, User(t, i)) && Unchanged(a, b, User(t, i));
    }
  }

  /** uvmcopy when mappages has failed on page v, with the child's first k pages still mapped. */
  ghost predicate Failing(s0: State, s: State, t: nat, child: nat, n: nat, v: nat, k: nat, image: seq<Page>) {
    && Ready(s, t) && Acts(s, t, t) && Acts(s, t, child) && |image| == n && k <= v < n
    && !Holds(s, t, 0) && !Holds(s, t, 1)
    && (forall i :: 0 <= i < n ==> Shows(s, User(t, i), image[i]))
    && (forall i :: 0 <= i <= v ==> Marked(s0, s, t, i))
    && (forall i :: v < i < n ==> Unchanged(s0, s, User(t, i)))
    && (forall i :: 0 <= i < k ==> User(child, i) in s.own)
    && (forall i :: k <= i < n ==> User(child, i) !in s.own)
  }

  lemma FailingTurn(s0: State, a: State, b: State, t: nat, child: nat, n: nat, v: nat, image: seq<Page>)
    requires Copying(s0, a, t, child, n, v, image) && v < n && t != child
    requires Kept(t, a, b, {User(t, v), User(child, v), InFlight(t, 0)})
    requires !Holds(b, t, 0) && Shows(b, User(t, v), image[v])
    requires User(child, v) !in b.own && Marked(a, b, t, v)
    ensures Failing(s0, b, t, child, n, v, v, image)
  {
    assert Unchanged(a, b, InFlight(t, 1)) && Unchanged(s0, a, User(t, v));
    forall i | 0 <= i < n && i != v
      ensures Shows(b, User(t, i), image[i]) && Unchanged(a, b, User(child, i)) && Unchanged(a, b, User(t, i))
    {
      TurnOthers(a, b, t, child, v, i);
    }
    forall i | 0 <= i < v ensures Marked(s0, b, t, i) && User(child, i) in b.own {
      assert SharedEntry(s0, a, t, child, i) && Unchanged(a, b, User(t, i)) && Unchanged(a, b, User(child, i));
    }
    forall i | v < i < n ensures Unchanged(s0, b, User(t, i)) {
      assert Unchanged(s0, a, User(t, i)) && Unchanged(a, b, User(t, i));
    }
  }

  /** Unmapping the child's first v pages again leaves the child nothing. */
  lemma FailingUndone(s0: State, a: State, b: State, t: nat, child: nat, n: nat, v: nat, image: seq<Page>)
    requires Failing(s0, a, t, child, n, v, v, image) && t != child
    requires Kept(t, a, b, Pages(child, 0, v) + {InFlight(t, 1)})
    requires !Holds(b, t, 1) && forall i :: 0 <= i < v ==> User(child, i) !in b.own
    ensures Failing(s0, b, t, child, n, v, 0, image)
  {
    assert Unchanged(a, b, InFlight(t, 0));
    forall i | 0 <= i < n ensures Unchanged(a, b, User(t, i)) && User(child, i) !in b.own {
      assert Unchanged(a, b, User(t, i));
      assert i >= v ==> Unchanged(a, b, User(child, i));
    }
    forall i | 0 <= i <= v ensures Marked(s0, b, t, i) {
      assert Marked(s0, a, t, i) && Unchanged(a, b, User(t, i));
    }
    forall i | v < i < n ensures Unchanged(s0, b, User(t, i)) {
      assert Unchanged(s0, a, User(t, i)) && Unchanged(a, b, User(t, i));
    }
  }

  /** Thread t is in the middle of neither a store fault's claim nor an unmapping. */
  predicate Ready(s: State, t: nat) {
    t !in s.sole && t !in s.stale
  }

  /** copyout refuses address a of process t. */
  predicate Refused(s: State, t: nat, a: nat) {
    var v := a / PGSIZE;
    v == 0 || v * PGSIZE >= MAXVA || User(t, v) !in s.own || !s.own[User(t, v)].Pte? || !s.own[User(t, v)].u
  }

  /** kfree's fill. */
  function Ones(): Page {
    seq(PGSIZE, i => 1)
  }

  /** Process t has a zeroed page at v, writable or not, for the user. */
  predicate Zeroed(s: State, t: nat, v: nat, w: bool) {
    Shows(s, User(t, v), Zeros()) && s.own[User(t, v)] == Pte(s.own[User(t, v)].ppn, w, false, true)
  }

  /** uvmalloc's loop at page v: the pages before it are there, the rest not. */
  ghost predicate Growing(s: State, t: nat, lo: nat, hi: nat, v: nat, w: bool) {
    && lo <= v <= hi && Ready(s, t) && Acts(s, t, t) && !Holds(s, t, 0) && !Holds(s, t, 1)
    && (forall i :: lo <= i < v ==> Zeroed(s, t, i, w))
    && (forall i :: v <= i < hi ==> User(t, i) !in s.own)
  }

  lemma ZeroedKept(a: State, b: State, t: nat, lo: nat, hi: nat, w: bool)
    requires forall i :: lo <= i < hi ==> Zeroed(a, t, i, w) && Unchanged(a, b, User(t, i))
    ensures forall i :: lo <= i < hi ==> Zeroed(b, t, i, w) && User(t, i) in b.own
  {
  }

  /** One reference to page p has been given back, and the page with it if it was the last. */
  predicate GivenBack(cnt: seq<int>, free: seq<nat>, cnt': seq<int>, free': seq<nat>, p: nat) {
    && p < |cnt| && cnt' == Decreased(cnt, p)
    && free' == if cnt[p] <= 1 then [p] + free else free
  }

  function Decreased(cnt: seq<int>, p: nat): seq<int>
    requires p < |cnt|
  {
    cnt[p := if cnt[p] <= 1 then 0 else cnt[p] - 1]
  }

  lemma DroppedFacts(s: State, t: nat, k: nat, p: nat)
    requires p < |s.cnt|
    ensures var r := Dropped(s, t, k, p);
            && r.cnt == Decreased(s.cnt, p) && r.free == s.free && (Holds(r, t, k) <==> s.cnt[p] <= 1)
            && (Holds(r, t, k) ==> r.own[InFlight(t, k)] == Raw(p))
  {
  }

  class Kernel {
    var s: State

    constructor (init: State)
      requires Inv(init)
      ensures s == init
    {
      s := init;
    }

    /** Other threads run for a while. Whoever calls this knows of their doings only what
        `Kept` says, which `OthersRun` proves of every sequence of steps of other threads. */
    method Interfere(ghost t: nat, ghost alone: bool)
      requires Inv(s)
      modifies this
      ensures Kept(t, old(s), s, {})
      ensures Lost(s, t) == Lost(old(s), t)
      ensures alone ==> s == old(s)
    {
    }

    /** A step of thread st.t, after which others run for a while. */
    method Act(st: Step, ghost start: State, ghost x: set<Owner>, ghost alone: bool)
      requires Inv(s) && Enabled(s, st) && Plain(st)
      requires Kept(st.t, start, s, x) && Touched(st) <= x
      modifies this
      ensures Kept(st.t, start, s, x)
      ensures Kept(st.t, Next(old(s), st), s, {})
      ensures Lost(s, st.t) == Lost(old(s), st.t) + if st.Leak? then 1 else 0
      ensures alone ==> s == Next(old(s), st)
    {
      OwnStepKeeps(s, st);
      StepLoses(s, st);
      KeptAbsorb(st.t, start, s, Next(s, st), x, Touched(st));
      s := Next(s, st);
      ghost var done := s;
      Interfere(st.t, alone);
      KeptAbsorb(st.t, start, done, s, x, {});
    }

    /** kalloc: take a page off the free list, then set its count. */
    method Kalloc(t: nat, k: nat, ghost alone: bool) returns (ok: bool)
      requires Inv(s) && Ready(s, t) && !Holds(s, t, k)
      modifies this
      ensures Kept(t, old(s), s, {InFlight(t, k)})
      ensures ok <==> Holds(s, t, k)
      ensures ok ==> s.own[InFlight(t, k)].Fresh?
      ensures Lost(s, t) == Lost(old(s), t)
      ensures alone ==> (ok <==> old(s).free != []) && |s.free| == |old(s).free| - if ok then 1 else 0
    {
      ghost var x := {InFlight(t, k)};
      Interfere(t, alone);
      KeptWiden(t, old(s), s, {}, x);
      assert Unchanged(old(s), s, InFlight(t, k));
      if |s.free| == 0 {
        return false;
      }
      ghost var a := Next(s, Pop(t, k));
      Act(Pop(t, k), old(s), x, alone);
      assert Unchanged(a, s, InFlight(t, k));
      a := Next(s, SetCount(t, k));
      Act(SetCount(t, k), old(s), x, alone);
      assert Unchanged(a, s, InFlight(t, k));
      return true;
    }

    /** kfree's section under reference_lock. */
    method DropReference(t: nat, k: nat, ghost start: State, ghost x: set<Owner>, ghost alone: bool)
      requires Inv(s) && Enabled(s, Drop(t, k)) && Kept(t, start, s, x) && InFlight(t, k) in x
      modifies this
      ensures Kept(t, start, s, x) && Kept(t, old(s), s, {InFlight(t, k)})
      ensures Holds(s, t, k) ==> s.own[InFlight(t, k)].Raw?
      ensures Lost(s, t) == Lost(old(s), t)
      ensures var p := old(s).own[InFlight(t, k)].ppn;
              && p < |old(s).cnt| && (Holds(s, t, k) ==> s.own[InFlight(t, k)].ppn == p)
              && (alone ==> && s.cnt == Decreased(old(s).cnt, p)
                            && s.free == old(s).free && (Holds(s, t, k) <==> old(s).cnt[p] <= 1))
    {
      ghost var b, a := s, Next(s, Drop(t, k));
      DroppedFacts(s, t, k, s.own[InFlight(t, k)].ppn);
      OwnStepKeeps(s, Drop(t, k));
      Act(Drop(t, k), start, x, alone);
      KeptAbsorb(t, b, a, s, {InFlight(t, k)}, {});
      assert Unchanged(a, s, InFlight(t, k));
    }

    /** The rest of kfree, for a page without references: fill it with ones and list it. */
    method PushPage(t: nat, k: nat, ghost start: State, ghost x: set<Owner>, ghost alone: bool)
      requires Inv(s) && Enabled(s, Push(t, k)) && Enabled(s, Fill(t, k, Ones()))
      requires Kept(t, start, s, x) && InFlight(t, k) in x
      modifies this
      ensures Kept(t, start, s, x) && !Holds(s, t, k)
      ensures Lost(s, t) == Lost(old(s), t)
      ensures alone ==> s.free == [old(s).own[InFlight(t, k)].ppn] + old(s).free && s.cnt == old(s).cnt
    {
      ghost var a := Next(s, Fill(t, k, Ones()));
      Act(Fill(t, k, Ones()), start, x, alone);
      assert Unchanged(a, s, InFlight(t, k));
      a := Next(s, Push(t, k));
      Act(Push(t, k), start, x, alone);
      assert Unchanged(a, s, InFlight(t, k));
    }

    /** kfree: give a reference back; the last one puts the page on the free list. */
    method Kfree(t: nat, k: nat, ghost alone: bool)
      requires Inv(s) && t !in s.sole && (t in s.stale ==> s.stale[t].k == k)
      requires Holds(s, t, k) && !s.own[InFlight(t, k)].Raw?
      modifies this
      ensures Kept(t, old(s), s, {InFlight(t, k)}) && !Holds(s, t, k)
      ensures Lost(s, t) == Lost(old(s), t)
      ensures alone ==> GivenBack(old(s).cnt, old(s).free, s.cnt, s.free, old(s).own[InFlight(t, k)].ppn)
    {
      ghost var x := {InFlight(t, k)};
      Interfere(t, alone);
      KeptWiden(t, old(s), s, {}, x);
      assert Unchanged(old(s), s, InFlight(t, k));
      DropReference(t, k, old(s), x, alone);
      if InFlight(t, k) in s.own {
        PushPage(t, k, old(s), x, alone);
      }
    }

    /** The copying branch of a store fault, and all of handle_cowbit: replace a shared
        page by a private copy. `alive` is false where the source kills the process. */
    method CopyPage(t: nat, v: nat, ghost alone: bool) returns (alive: bool)
      requires Inv(s) && Ready(s, t) && Acts(s, t, t) && !Holds(s, t, 0) && !Holds(s, t, 1)
      requires User(t, v) in s.own && s.own[User(t, v)].cow
      modifies this
      ensures Kept(t, old(s), s, {User(t, v), InFlight(t, 0), InFlight(t, 1)})
      ensures !Holds(s, t, 0) && !Holds(s, t, 1)
      ensures User(t, v) in s.own && s.mem[s.own[User(t, v)].ppn] == old(s).mem[old(s).own[User(t, v)].ppn]
      ensures alive ==> var pte := s.own[User(t, v)]; pte.w && !pte.cow && pte.u == old(s).own[User(t, v)].u
      ensures !alive ==> s.own[User(t, v)] == old(s).own[User(t, v)]
      ensures Lost(s, t) == Lost(old(s), t)
      ensures alone ==> (alive <==> old(s).free != []) && |s.free| >= |old(s).free| - 1
    {
      ghost var x := {User(t, v), InFlight(t, 0), InFlight(t, 1)};
      ghost var s0 := s;
      alive := Kalloc(t, 0, alone);
      KeptWiden(t, s0, s, {InFlight(t, 0)}, x);
      assert Unchanged(s0, s, User(t, v)) && Unchanged(s0, s, InFlight(t, 1));
      if !alive {
        return;
      }
      ghost var a := s;
      InstallCopy(t, v, alone);
      KeptAbsorb(t, s0, a, s, x, x);
    }

    method InstallCopy(t: nat, v: nat, ghost alone: bool)
      requires Inv(s) && Ready(s, t) && Acts(s, t, t) && !Holds(s, t, 1)
      requires Holds(s, t, 0) && s.own[InFlight(t, 0)].Fresh?
      requires User(t, v) in s.own && s.own[User(t, v)].cow
      modifies this
      ensures Kept(t, old(s), s, {User(t, v), InFlight(t, 0), InFlight(t, 1)}) && Lost(s, t) == Lost(old(s), t)
      ensures !Holds(s, t, 0) && !Holds(s, t, 1)
      ensures User(t, v) in s.own && s.mem[s.own[User(t, v)].ppn] == old(s).mem[old(s).own[User(t, v)].ppn]
      ensures var pte := s.own[User(t, v)]; pte.w && !pte.cow && pte.u == old(s).own[User(t, v)].u
      ensures alone ==> GivenBack(old(s).cnt, old(s).free, s.cnt, s.free, old(s).own[User(t, v)].ppn)
    {
      ghost var x := {User(t, v), InFlight(t, 0), InFlight(t, 1)};
      ghost var s0 := s;
      PutCopy(t, v, alone);
      ghost var a := s;
      Kfree(t, 1, alone);
      assert Unchanged(a, s, User(t, v)) && Unchanged(a, s, InFlight(t, 0));
      KeptAbsorb(t, s0, a, s, x, {InFlight(t, 1)});
    }

    /** The copy in place of the shared page, whose reference is in slot 1 now. */
    method PutCopy(t: nat, v: nat, ghost alone: bool)
      requires Inv(s) && Ready(s, t) && Acts(s, t, t) && !Holds(s, t, 1)
      requires Holds(s, t, 0) && s.own[InFlight(t, 0)].Fresh?
      requires User(t, v) in s.own && s.own[User(t, v)].cow
      modifies this
      ensures Kept(t, old(s), s, {User(t, v), InFlight(t, 0), InFlight(t, 1)}) && Lost(s, t) == Lost(old(s), t)
      ensures !Holds(s, t, 0) && Holds(s, t, 1) && s.own[InFlight(t, 1)] == Shared(old(s).own[User(t, v)].ppn)
      ensures Shows(s, User(t, v), old(s).mem[old(s).own[User(t, v)].ppn])
      ensures var pte := s.own[User(t, v)]; pte.Pte? && pte.w && !pte.cow && pte.u == old(s).own[User(t, v)].u
      ensures alone ==> s.free == old(s).free && s.cnt == old(s).cnt
    {
      ghost var x := {User(t, v), InFlight(t, 0), InFlight(t, 1)};
      ghost var s0 := s;
      FillCopy(t, v, alone);
      KeptWiden(t, s0, s, {InFlight(t, 0)}, x);
      assert Unchanged(s0, s, User(t, v)) && Unchanged(s0, s, InFlight(t, 1));
      ghost var a := s;
      SwapIn(t, v, alone);
      KeptAbsorb(t, s0, a, s, x, x);
    }

    /** memmove of the shared page to the new one. */
    method FillCopy(t: nat, v: nat, ghost alone: bool)
      requires Inv(s) && Ready(s, t) && Holds(s, t, 0) && s.own[InFlight(t, 0)].Fresh?
      requires Acts(s, t, t) && User(t, v) in s.own
      modifies this
      ensures Kept(t, old(s), s, {InFlight(t, 0)})
      ensures Holds(s, t, 0) && s.own[InFlight(t, 0)].Fresh?
      ensures Shows(s, InFlight(t, 0), old(s).mem[old(s).own[User(t, v)].ppn])
      ensures Lost(s, t) == Lost(old(s), t)
      ensures alone ==> s.free == old(s).free && s.cnt == old(s).cnt
    {
      ghost var s0 := s;
      var data := s.mem[s.own[User(t, v)].ppn];
      KeptSelf(t, s);
      KeptWiden(t, s, s, {}, {InFlight(t, 0)});
      ghost var a := Next(s, Fill(t, 0, data));
      Act(Fill(t, 0, data), s0, {InFlight(t, 0)}, alone);
      assert Unchanged(a, s, InFlight(t, 0));
    }

    /** The write that points the entry at the copy. */
    method SwapIn(t: nat, v: nat, ghost alone: bool)
      requires Inv(s) && Ready(s, t) && Acts(s, t, t) && !Holds(s, t, 1)
      requires Holds(s, t, 0) && s.own[InFlight(t, 0)].Fresh?
      requires User(t, v) in s.own && s.own[User(t, v)].cow
      requires Shows(s, InFlight(t, 0), s.mem[s.own[User(t, v)].ppn])
      modifies this
      ensures Kept(t, old(s), s, {User(t, v), InFlight(t, 0), InFlight(t, 1)})
      ensures !Holds(s, t, 0) && Holds(s, t, 1) && s.own[InFlight(t, 1)] == Shared(old(s).own[User(t, v)].ppn)
      ensures Shows(s, User(t, v), old(s).mem[old(s).own[User(t, v)].ppn])
      ensures var pte := s.own[User(t, v)]; pte.Pte? && pte.w && !pte.cow && pte.u == old(s).own[User(t, v)].u
      ensures Lost(s, t) == Lost(old(s), t)
      ensures alone ==> s.free == old(s).free && s.cnt == old(s).cnt
    {
      ghost var x := {User(t, v), InFlight(t, 0), InFlight(t, 1)};
      ghost var s0 := s;
      KeptSelf(t, s);
      KeptWiden(t, s, s, {}, x);
      ghost var a := Next(s, Replace(t, 0, 1, v));
      Act(Replace(t, 0, 1, v), s0, x, alone);
      assert Unchanged(a, s, User(t, v)) && Unchanged(a, s, InFlight(t, 0)) && Unchanged(a, s, InFlight(t, 1));
    }

    /** The other branch of a store fault: nobody else has the page, so make it writable.
        The count is read without a lock, and others run between reading and the two writes
        of the entry. */
    method ClaimPage(t: nat, v: nat, ghost alone: bool)
      requires Inv(s) && Enabled(s, Test(t, v))
      modifies this
      ensures Kept(t, old(s), s, {User(t, v)})
      ensures User(t, v) in s.own && s.own[User(t, v)] == old(s).own[User(t, v)].(w := true, cow := false)
      ensures s.mem[s.own[User(t, v)].ppn] == old(s).mem[old(s).own[User(t, v)].ppn]
      ensures Lost(s, t) == Lost(old(s), t)
      ensures alone ==> s.free == old(s).free && s.cnt == old(s).cnt
    {
      ghost var s0, x := s, {User(t, v)};
      TestCount(t, v, alone);
      ghost var a := s;
      UnmarkEntry(t, v, alone);
      RefsTrans(t, s0, a, s, {}, x);
      assert {} + x == x;
      ClaimEntry(t, v, s0);
    }

    /** The write that sets the W bit. */
    method ClaimEntry(t: nat, v: nat, ghost s0: State)
      requires Inv(s) && Enabled(s, Claim(t, v)) && Ready(s0, t) && Refs(t, s0, s, {User(t, v)})
      modifies this
      ensures Kept(t, s0, s, {User(t, v)})
      ensures User(t, v) in s.own && s.own[User(t, v)] == old(s).own[User(t, v)].(w := true)
      ensures s.mem[s.own[User(t, v)].ppn] == old(s).mem[old(s).own[User(t, v)].ppn]
      ensures Lost(s, t) == Lost(old(s), t)
      ensures s.free == old(s).free && s.cnt == old(s).cnt
    {
      OwnStepRefs(s, Claim(t, v));
      RefsAbsorb(t, s0, s, Next(s, Claim(t, v)), {User(t, v)}, {User(t, v)});
      s := Next(s, Claim(t, v));
    }

    /** The unlocked read of the count, and what others do after it. */
    method TestCount(t: nat, v: nat, ghost alone: bool)
      requires Inv(s) && Enabled(s, Test(t, v))
      modifies this
      ensures Refs(t, old(s), s, {}) && Enabled(s, Unmark(t, v))
      ensures s.own[User(t, v)] == old(s).own[User(t, v)]
      ensures s.mem[s.own[User(t, v)].ppn] == old(s).mem[old(s).own[User(t, v)].ppn]
      ensures Lost(s, t) == Lost(old(s), t)
      ensures alone ==> s.free == old(s).free && s.cnt == old(s).cnt
    {
      ghost var s0 := s;
      OwnStepRefs(s, Test(t, v));
      s := Next(s, Test(t, v));
      ghost var a := s;
      Interfere(t, alone);
      TestThenClaim(s0, s, t, v);
      RefsAbsorb(t, s0, a, s, {}, {});
    }

    /** The write that clears the COW bit, and what others do after it. */
    method UnmarkEntry(t: nat, v: nat, ghost alone: bool)
      requires Inv(s) && Enabled(s, Unmark(t, v))
      modifies this
      ensures Refs(t, old(s), s, {User(t, v)}) && Enabled(s, Claim(t, v))
      ensures s.own[User(t, v)] == old(s).own[User(t, v)].(cow := false)
      ensures s.mem[s.own[User(t, v)].ppn] == old(s).mem[old(s).own[User(t, v)].ppn]
      ensures Lost(s, t) == Lost(old(s), t)
      ensures alone ==> s.free == old(s).free && s.cnt == old(s).cnt
    {
      ghost var b := s;
      OwnStepRefs(s, Unmark(t, v));
      s := Next(s, Unmark(t, v));
      ghost var c := s;
      Interfere(t, alone);
      UnmarkThenClaim(b, s, t, v);
      RefsAbsorb(t, b, c, s, {User(t, v)}, {});
    }

    /** After a thread has read a count of 1, whatever others do, the count stays 1 and the
        thread may start making the page writable. */
    lemma TestThenClaim(s0: State, b: State, t: nat, v: nat)
      requires Inv(s0) && Enabled(s0, Test(t, v))
      requires Inv(Next(s0, Test(t, v))) && Kept(t, Next(s0, Test(t, v)), b, {})
      ensures CountIsOne(b, User(t, v)) && Alone(b.own, User(t, v)) && Enabled(b, Unmark(t, v))
      ensures b.own[User(t, v)] == s0.own[User(t, v)]
      ensures b.mem[b.own[User(t, v)].ppn] == s0.mem[s0.own[User(t, v)].ppn]
    {
      var a := Next(s0, Test(t, v));
      assert Unchanged(a, b, User(t, v));
      SoleOwner(b, t, v);
    }

    /** And after it has cleared the COW bit, whatever others do, it may set the W bit. */
    lemma UnmarkThenClaim(b: State, d: State, t: nat, v: nat)
      requires Inv(b) && Enabled(b, Unmark(t, v))
      requires Inv(Next(b, Unmark(t, v))) && Kept(t, Next(b, Unmark(t, v)), d, {})
      ensures CountIsOne(d, User(t, v)) && Alone(d.own, User(t, v)) && Enabled(d, Claim(t, v))
      ensures d.own[User(t, v)] == b.own[User(t, v)].(cow := false)
      ensures d.mem[d.own[User(t, v)].ppn] == b.mem[b.own[User(t, v)].ppn]
    {
      var c := Next(b, Unmark(t, v));
      assert c.sole == b.sole && c.mem == b.mem && c.own[User(t, v)] == b.own[User(t, v)].(cow := false);
      assert Unchanged(c, d, User(t, v));
      SoleOwner(d, t, v);
    }

    /** A thread that has read a count of 1 still is the only owner. */
    lemma SoleOwner(d: State, t: nat, v: nat)
      requires Inv(d) && t in d.sole && d.sole[t] == v && User(t, v) in d.own
      ensures CountIsOne(d, User(t, v)) && Alone(d.own, User(t, v))
    {
    }

    /** handle_trap_cow on a mapped page. The process sees the same memory afterwards; if
        it survives, a page that was copy-on-write is its own and writable. */
    method HandleTrapCow(t: nat, v: nat, ghost alone: bool) returns (alive: bool)
      requires Inv(s) && Ready(s, t) && Acts(s, t, t) && !Holds(s, t, 0) && !Holds(s, t, 1)
      requires User(t, v) in s.own
      modifies this
      ensures Kept(t, old(s), s, {User(t, v), InFlight(t, 0), InFlight(t, 1)})
      ensures !Holds(s, t, 0) && !Holds(s, t, 1)
      ensures User(t, v) in s.own && s.mem[s.own[User(t, v)].ppn] == old(s).mem[old(s).own[User(t, v)].ppn]
      ensures alive && old(s).own[User(t, v)].cow ==> s.own[User(t, v)].w && !s.own[User(t, v)].cow
      ensures !alive || !old(s).own[User(t, v)].cow ==> s.own[User(t, v)] == old(s).own[User(t, v)]
      ensures !alive ==> old(s).own[User(t, v)].cow
      ensures old(s).own[User(t, v)].cow && CountIsOne(old(s), User(t, v)) ==>
                alive && s.own[User(t, v)] == old(s).own[User(t, v)].(w := true, cow := false)
      ensures Lost(s, t) == Lost(old(s), t)
      ensures alone ==> (old(s).free != [] ==> alive) && |s.free| >= |old(s).free| - 1
    {
      var pte := s.own[User(t, v)];
      ghost var x := {User(t, v), InFlight(t, 0), InFlight(t, 1)};
      if pte.cow && s.cnt[pte.ppn] != 1 {
        alive := CopyPage(t, v, alone);
      } else if pte.cow && s.cnt[pte.ppn] == 1 {
        ClaimPage(t, v, alone);
        KeptWiden(t, old(s), s, {User(t, v)}, x);
        assert Unchanged(old(s), s, InFlight(t, 0)) && Unchanged(old(s), s, InFlight(t, 1));
        alive := true;
      } else {
        alive := true;
      }
    }

    /** The body of uvmunmap's loop, with do_free set: kfree first, then the entry goes. */
    method UnmapPage(t: nat, pid: nat, v: nat, ghost alone: bool)
      requires Inv(s) && Ready(s, t) && Acts(s, t, pid) && !Holds(s, t, 1) && User(pid, v) in s.own
      modifies this
      ensures Kept(t, old(s), s, {User(pid, v), InFlight(t, 1)})
      ensures User(pid, v) !in s.own && !Holds(s, t, 1)
      ensures Lost(s, t) == Lost(old(s), t)
      ensures alone ==> GivenBack(old(s).cnt, old(s).free, s.cnt, s.free, old(s).own[User(pid, v)].ppn)
    {
      ghost var x := {User(pid, v), InFlight(t, 1)};
      ghost var s0 := s;
      FreeEntry(t, pid, v, alone);
      ghost var a := s;
      ClearEntry(t, s0, x, alone);
      assert Unchanged(a, s, User(pid, v)) && Unchanged(a, s, InFlight(t, 1));
    }

    /** The first half: the page has gone to kfree, and the entry is stale. */
    method FreeEntry(t: nat, pid: nat, v: nat, ghost alone: bool)
      requires Inv(s) && Ready(s, t) && Acts(s, t, pid) && !Holds(s, t, 1) && User(pid, v) in s.own
      modifies this
      ensures Refs(t, old(s), s, {User(pid, v), InFlight(t, 1)}) && t !in s.sole && Enabled(s, Clear(t))
      ensures User(pid, v) !in s.own && !Holds(s, t, 1)
      ensures Lost(s, t) == Lost(old(s), t)
      ensures alone ==> GivenBack(old(s).cnt, old(s).free, s.cnt, s.free, old(s).own[User(pid, v)].ppn)
    {
      ghost var s0 := s;
      BeginUnmap(t, pid, v, alone);
      ghost var a := s;
      Kfree(t, 1, alone);
      assert Unchanged(a, s, User(pid, v));
      assert alone ==> GivenBack(s0.cnt, s0.free, s.cnt, s.free, s0.own[User(pid, v)].ppn);
      RefsAbsorb(t, s0, a, s, {User(pid, v), InFlight(t, 1)}, {InFlight(t, 1)});
    }

    /** uvmunmap's call of kfree on the page of an entry: from here on the entry is stale. */
    method BeginUnmap(t: nat, pid: nat, v: nat, ghost alone: bool)
      requires Inv(s) && Ready(s, t) && Acts(s, t, pid) && !Holds(s, t, 1) && User(pid, v) in s.own
      modifies this
      ensures Refs(t, old(s), s, {User(pid, v), InFlight(t, 1)})
      ensures t !in s.sole && t in s.stale && s.stale[t] == Stale(pid, v, 1, old(s).own[User(pid, v)])
      ensures User(pid, v) !in s.own && Holds(s, t, 1)
      ensures s.own[InFlight(t, 1)] == Shared(old(s).own[User(pid, v)].ppn)
      ensures Lost(s, t) == Lost(old(s), t)
      ensures alone ==> s.free == old(s).free && s.cnt == old(s).cnt
    {
      ghost var s0 := s;
      OwnStepRefs(s, Unmap(t, 1, pid, v));
      s := Next(s, Unmap(t, 1, pid, v));
      ghost var a := s;
      Interfere(t, alone);
      assert Unchanged(a, s, User(pid, v)) && Unchanged(a, s, InFlight(t, 1));
      RefsAbsorb(t, s0, a, s, {User(pid, v), InFlight(t, 1)}, {});
    }

    /** The end of the loop's body. */
    method ClearEntry(t: nat, ghost s0: State, ghost x: set<Owner>, ghost alone: bool)
      requires Inv(s) && Enabled(s, Clear(t)) && t !in s.sole && Refs(t, s0, s, x) && Ready(s0, t)
      modifies this
      ensures Kept(t, s0, s, x)
      ensures forall o {:trigger Unchanged(old(s), s, o)} :: Mine(old(s), t, o) ==> Unchanged(old(s), s, o)
      ensures Lost(s, t) == Lost(old(s), t)
      ensures alone ==> s.free == old(s).free && s.cnt == old(s).cnt
    {
      ghost var b := s;
      OwnStepRefs(s, Clear(t));
      RefsAbsorb(t, s0, s, Next(s, Clear(t)), x, {});
      s := Next(s, Clear(t));
      ghost var c := s;
      Interfere(t, alone);
      RefsAbsorb(t, s0, c, s, x, {});
      forall o | Mine(b, t, o) ensures Unchanged(b, s, o) {
        assert Unchanged(b, c, o) && Unchanged(c, s, o);
      }
    }

    /** uvmunmap with do_free: the pages lo to hi - 1 go, and nothing else of the thread's. */
    method Uvmunmap(t: nat, pid: nat, lo: nat, hi: nat, ghost alone: bool)
      requires Inv(s) && Ready(s, t) && Acts(s, t, pid) && !Holds(s, t, 1) && lo <= hi
      requires forall v :: lo <= v < hi ==> User(pid, v) in s.own
      modifies this
      ensures Kept(t, old(s), s, Pages(pid, lo, hi) + {InFlight(t, 1)})
      ensures !Holds(s, t, 1) && forall v :: lo <= v < hi ==> User(pid, v) !in s.own
      ensures Lost(s, t) == Lost(old(s), t)
      ensures alone ==> |s.free| >= |old(s).free|
    {
      ghost var s0 := s;
      var v := lo;
      while v < hi
        invariant lo <= v <= hi
        invariant Kept(t, s0, s, Pages(pid, lo, v) + {InFlight(t, 1)}) && Lost(s, t) == Lost(s0, t)
        invariant alone ==> |s.free| >= |s0.free|
        invariant !Holds(s, t, 1) && forall i :: lo <= i < v ==> User(pid, i) !in s.own
      {
        assert Unchanged(s0, s, User(pid, v));
        ghost var a := s;
        UnmapPage(t, pid, v, alone);
        KeptTrans(t, s0, a, s, Pages(pid, lo, v) + {InFlight(t, 1)}, {User(pid, v), InFlight(t, 1)});
        assert Pages(pid, lo, v + 1) + {InFlight(t, 1)}
            == Pages(pid, lo, v) + {InFlight(t, 1)} + {User(pid, v), InFlight(t, 1)};
        forall i | lo <= i < v ensures User(pid, i) !in s.own {
          assert Unchanged(a, s, User(pid, i));
        }
        v := v + 1;
      }
    }

    /** declarations, applied to page v of the forking process: mark it copy-on-write and
        count one more reference to it. */
    method Declarations(t: nat, v: nat, ghost alone: bool)
      requires Inv(s) && Ready(s, t) && Acts(s, t, t) && !Holds(s, t, 0) && User(t, v) in s.own
      modifies this
      ensures Kept(t, old(s), s, {User(t, v), InFlight(t, 0)})
      ensures User(t, v) in s.own && s.own[User(t, v)] == old(s).own[User(t, v)].(w := false, cow := true)
      ensures Shows(s, User(t, v), old(s).mem[old(s).own[User(t, v)].ppn])
      ensures Holds(s, t, 0) && s.own[InFlight(t, 0)] == Shared(s.own[User(t, v)].ppn)
      ensures Lost(s, t) == Lost(old(s), t)
    {
      ghost var x := {User(t, v), InFlight(t, 0)};
      ghost var s0 := s;
      MarkPage(t, v, alone);
      KeptWiden(t, s0, s, {User(t, v)}, x);
      assert Unchanged(s0, s, InFlight(t, 0));
      ghost var a := Next(s, Declare(t, 0, t, v));
      Act(Declare(t, 0, t, v), s0, x, alone);
      assert Unchanged(a, s, User(t, v)) && Unchanged(a, s, InFlight(t, 0));
    }

    /** The two writes of the entry in declarations. */
    method MarkPage(t: nat, v: nat, ghost alone: bool)
      requires Inv(s) && Ready(s, t) && Acts(s, t, t) && User(t, v) in s.own
      modifies this
      ensures Kept(t, old(s), s, {User(t, v)})
      ensures User(t, v) in s.own && s.own[User(t, v)] == old(s).own[User(t, v)].(w := false, cow := true)
      ensures Shows(s, User(t, v), old(s).mem[old(s).own[User(t, v)].ppn])
      ensures Lost(s, t) == Lost(old(s), t)
    {
      ghost var x := {User(t, v)};
      ghost var s0 := s;
      KeptSelf(t, s);
      KeptWiden(t, s, s, {}, x);
      ghost var a := Next(s, SetCow(t, t, v));
      Act(SetCow(t, t, v), s0, x, alone);
      assert Unchanged(a, s, User(t, v));
      ClearWrite(t, v, s0, alone);
    }

    method ClearWrite(t: nat, v: nat, ghost s0: State, ghost alone: bool)
      requires Inv(s) && Enabled(s, ClearW(t, t, v)) && Kept(t, s0, s, {User(t, v)})
      modifies this
      ensures Kept(t, s0, s, {User(t, v)}) && Lost(s, t) == Lost(old(s), t)
      ensures User(t, v) in s.own && s.own[User(t, v)] == old(s).own[User(t, v)].(w := false)
      ensures Shows(s, User(t, v), old(s).mem[old(s).own[User(t, v)].ppn])
    {
      ghost var a := Next(s, ClearW(t, t, v));
      Act(ClearW(t, t, v), s0, {User(t, v)}, alone);
      assert Unchanged(a, s, User(t, v));
    }

    /** One turn of uvmcopy's loop: parent and child end up showing the same page. If
        mappages fails the counted reference is simply forgotten. */
    method SharePage(t: nat, child: nat, v: nat, mapFails: bool, ghost alone: bool) returns (ok: bool)
      requires Inv(s) && Ready(s, t) && Acts(s, t, t) && Acts(s, t, child) && !Holds(s, t, 0)
      requires User(t, v) in s.own && User(child, v) !in s.own
      modifies this
      ensures Kept(t, old(s), s, {User(t, v), User(child, v), InFlight(t, 0)})
      ensures ok == !mapFails && !Holds(s, t, 0)
      ensures Shows(s, User(t, v), old(s).mem[old(s).own[User(t, v)].ppn])
      ensures ok ==> Shows(s, User(child, v), old(s).mem[old(s).own[User(t, v)].ppn])
      ensures Marked(old(s), s, t, v) && (ok ==> SharedEntry(old(s), s, t, child, v))
      ensures !ok ==> User(child, v) !in s.own
      ensures !ok ==> s.own[User(t, v)].ppn < |s.leaked| && s.leaked[s.own[User(t, v)].ppn] > 0
      ensures Lost(s, t) == Lost(old(s), t) + if ok then 0 else 1
    {
      ghost var x := {User(t, v), User(child, v), InFlight(t, 0)};
      ghost var s0 := s;
      Declarations(t, v, alone);
      KeptWiden(t, s0, s, {User(t, v), InFlight(t, 0)}, x);
      assert Unchanged(s0, s, User(child, v));
      if mapFails {
        ghost var b := s;
        ForgetReference(t, alone);
        KeptAbsorb(t, s0, b, s, x, {InFlight(t, 0)});
        assert Unchanged(b, s, User(t, v)) && Unchanged(b, s, User(child, v));
        return false;
      }
      ghost var a := Next(s, MapShared(t, 0, t, v, child));
      Act(MapShared(t, 0, t, v, child), s0, x, alone);
      assert Unchanged(a, s, User(t, v)) && Unchanged(a, s, User(child, v)) && Unchanged(a, s, InFlight(t, 0));
      return true;
    }

    /** The error path of uvmcopy, as far as the page is concerned that could not be mapped. */
    method ForgetReference(t: nat, ghost alone: bool)
      requires Inv(s) && Ready(s, t) && Holds(s, t, 0) && s.own[InFlight(t, 0)].Shared?
      modifies this
      ensures Kept(t, old(s), s, {InFlight(t, 0)}) && !Holds(s, t, 0)
      ensures var p := old(s).own[InFlight(t, 0)].ppn; p < |s.leaked| && s.leaked[p] > 0
      ensures Lost(s, t) == Lost(old(s), t) + 1
    {
      ghost var s0, x := s, {InFlight(t, 0)};
      KeptSelf(t, s);
      KeptWiden(t, s, s, {}, x);
      ghost var a := Next(s, Leak(t, 0));
      Act(Leak(t, 0), s0, x, alone);
      assert Unchanged(a, s, InFlight(t, 0));
    }

    /** uvmcopy, with mappages failing at the pages in `mapFails` for want of a page-table
        page. On success the child's memory is a copy of the parent's; either way the
        parent's own memory shows what it showed. Failing loses one reference. */
    method Uvmcopy(t: nat, child: nat, n: nat, mapFails: set<nat>, ghost image: seq<Page>, ghost alone: bool)
      returns (ok: bool)
      requires Inv(s) && Ready(s, t) && t != child && Acts(s, t, t) && Acts(s, t, child)
      requires !Holds(s, t, 0) && !Holds(s, t, 1) && |image| == n
      requires forall i :: 0 <= i < n ==> Shows(s, User(t, i), image[i]) && User(child, i) !in s.own
      modifies this
      ensures Kept(t, old(s), s, Pages(t, 0, n) + Pages(child, 0, n) + {InFlight(t, 0), InFlight(t, 1)})
      ensures !Holds(s, t, 0) && !Holds(s, t, 1)
      ensures forall i :: 0 <= i < n ==> Shows(s, User(t, i), image[i])
      ensures ok ==> forall i :: 0 <= i < n ==>
                Shows(s, User(child, i), image[i]) && SharedEntry(old(s), s, t, child, i)
      ensures !ok ==> forall i :: 0 <= i < n ==> User(child, i) !in s.own
      ensures ok <==> forall i :: 0 <= i < n ==> i !in mapFails
      ensures Lost(s, t) == Lost(old(s), t) + if ok then 0 else 1
    {
      ghost var s0, x := s, Pages(t, 0, n) + Pages(child, 0, n) + {InFlight(t, 0), InFlight(t, 1)};
      var v := 0;
      while v < n
        invariant Kept(t, s0, s, x) && Copying(s0, s, t, child, n, v, image) && Lost(s, t) == Lost(s0, t)
        invariant forall i :: 0 <= i < v ==> i !in mapFails
      {
        ok := CopyTurn(t, child, n, v, v in mapFails, image, s0, x, alone);
        if !ok {
          return false;
        }
        v := v + 1;
      }
      return true;
    }

    /** One turn of the loop, and the error path if it fails. */
    method CopyTurn(t: nat, child: nat, n: nat, v: nat, mapFails: bool, ghost image: seq<Page>, ghost s0: State,
                    ghost x: set<Owner>, ghost alone: bool) returns (ok: bool)
      requires Inv(s) && Kept(t, s0, s, x) && Copying(s0, s, t, child, n, v, image) && v < n && t != child
      requires {User(t, v), User(child, v), InFlight(t, 0)} <= x && Pages(child, 0, v) + {InFlight(t, 1)} <= x
      modifies this
      ensures Kept(t, s0, s, x) && ok == !mapFails
      ensures if ok then Copying(s0, s, t, child, n, v + 1, image) else Failing(s0, s, t, child, n, v, 0, image)
      ensures Lost(s, t) == Lost(old(s), t) + if ok then 0 else 1
    {
      ghost var a := s;
      assert Unchanged(s0, s, User(t, v));
      ok := SharePage(t, child, v, mapFails, alone);
      KeptAbsorb(t, s0, a, s, x, {User(t, v), User(child, v), InFlight(t, 0)});
      if ok {
        CopyingTurn(s0, a, s, t, child, n, v, image);
      } else {
        FailingTurn(s0, a, s, t, child, n, v, image);
        UndoCopy(t, child, n, v, image, s0, x, alone);
      }
    }

    /** The error path of uvmcopy, as far as the pages are concerned that were mapped. */
    method UndoCopy(t: nat, child: nat, n: nat, v: nat, ghost image: seq<Page>, ghost s0: State, ghost x: set<Owner>,
                    ghost alone: bool)
      requires Inv(s) && Failing(s0, s, t, child, n, v, v, image) && Kept(t, s0, s, x) && t != child
      requires Pages(child, 0, v) + {InFlight(t, 1)} <= x
      modifies this
      ensures Kept(t, s0, s, x) && Failing(s0, s, t, child, n, v, 0, image) && Lost(s, t) == Lost(old(s), t)
    {
      ghost var a := s;
      Uvmunmap(t, child, 0, v, alone);
      KeptAbsorb(t, s0, a, s, x, Pages(child, 0, v) + {InFlight(t, 1)});
      FailingUndone(s0, a, s, t, child, n, v, image);
    }

    /** One turn of uvmalloc's loop: map a zeroed page, or give up leaving nothing. */
    method GrowPage(t: nat, v: nat, w: bool, mapFails: bool, ghost alone: bool) returns (ok: bool)
      requires Inv(s) && Ready(s, t) && Acts(s, t, t) && !Holds(s, t, 0) && User(t, v) !in s.own
      modifies this
      ensures Kept(t, old(s), s, {User(t, v), InFlight(t, 0)}) && !Holds(s, t, 0)
      ensures ok ==> Zeroed(s, t, v, w)
      ensures !ok ==> User(t, v) !in s.own
      ensures mapFails ==> !ok
      ensures Lost(s, t) == Lost(old(s), t)
      ensures alone ==> (ok <==> old(s).free != [] && !mapFails) && |s.free| >= |old(s).free| - 1
    {
      ghost var x := {User(t, v), InFlight(t, 0)};
      ghost var s0 := s;
      ok := Kalloc(t, 0, alone);
      KeptWiden(t, s0, s, {InFlight(t, 0)}, x);
      assert Unchanged(s0, s, User(t, v));
      if ok {
        ghost var a := s;
        MapZeroed(t, v, w, mapFails, alone);
        KeptAbsorb(t, s0, a, s, x, x);
        ok := !mapFails;
      }
    }

    method MapZeroed(t: nat, v: nat, w: bool, mapFails: bool, ghost alone: bool)
      requires Inv(s) && Ready(s, t) && Acts(s, t, t) && User(t, v) !in s.own
      requires Holds(s, t, 0) && s.own[InFlight(t, 0)].Fresh?
      modifies this
      ensures Kept(t, old(s), s, {User(t, v), InFlight(t, 0)}) && !Holds(s, t, 0)
      ensures if mapFails then User(t, v) !in s.own else Zeroed(s, t, v, w)
      ensures Lost(s, t) == Lost(old(s), t)
      ensures alone ==> |s.free| >= |old(s).free|
    {
      ghost var s0, x := s, {User(t, v), InFlight(t, 0)};
      KeptSelf(t, s);
      KeptWiden(t, s, s, {}, x);
      ghost var a := Next(s, Fill(t, 0, Zeros()));
      Act(Fill(t, 0, Zeros()), s0, x, alone);
      assert Unchanged(a, s, User(t, v)) && Unchanged(a, s, InFlight(t, 0));
      a := s;
      if mapFails {
        Kfree(t, 0, alone);
        KeptAbsorb(t, s0, a, s, x, {InFlight(t, 0)});
        assert Unchanged(a, s, User(t, v));
      } else {
        MapPage(t, v, w, s0, alone);
      }
    }

    method MapPage(t: nat, v: nat, w: bool, ghost s0: State, ghost alone: bool)
      requires Inv(s) && Ready(s, t) && Acts(s, t, t) && User(t, v) !in s.own
      requires Holds(s, t, 0) && s.own[InFlight(t, 0)].Fresh? && Shows(s, InFlight(t, 0), Zeros())
      requires Kept(t, s0, s, {User(t, v), InFlight(t, 0)})
      modifies this
      ensures Kept(t, s0, s, {User(t, v), InFlight(t, 0)}) && !Holds(s, t, 0) && Zeroed(s, t, v, w)
      ensures Lost(s, t) == Lost(old(s), t)
      ensures alone ==> s.free == old(s).free
    {
      ghost var a := Next(s, MapNew(t, 0, t, v, w, true));
      Act(MapNew(t, 0, t, v, w, true), s0, {User(t, v), InFlight(t, 0)}, alone);
      assert Unchanged(a, s, User(t, v)) && Unchanged(a, s, InFlight(t, 0));
    }

    /** uvmalloc from page lo to page hi - 1: all of them, zeroed, or none. */
    method Uvmalloc(t: nat, lo: nat, hi: nat, w: bool, mapFails: set<nat>, ghost alone: bool) returns (ok: bool)
      requires Inv(s) && Ready(s, t) && Acts(s, t, t) && !Holds(s, t, 0) && !Holds(s, t, 1) && lo <= hi
      requires forall v :: lo <= v < hi ==> User(t, v) !in s.own
      modifies this
      ensures Kept(t, old(s), s, Pages(t, lo, hi) + {InFlight(t, 0), InFlight(t, 1)})
      ensures !Holds(s, t, 0) && !Holds(s, t, 1)
      ensures ok ==> forall v :: lo <= v < hi ==> v !in mapFails && Zeroed(s, t, v, w)
      ensures !ok ==> forall v :: lo <= v < hi ==> User(t, v) !in s.own
      ensures Lost(s, t) == Lost(old(s), t)
      ensures alone && |old(s).free| >= hi - lo && (forall v :: lo <= v < hi ==> v !in mapFails) ==> ok
    {
      ghost var s0, x := s, Pages(t, lo, hi) + {InFlight(t, 0), InFlight(t, 1)};
      var v := lo;
      while v < hi
        invariant Kept(t, s0, s, x) && Growing(s, t, lo, hi, v, w) && Lost(s, t) == Lost(s0, t)
        invariant alone ==> |s.free| >= |s0.free| - (v - lo)
        invariant forall i :: lo <= i < v ==> i !in mapFails
      {
        ok := GrowTurn(t, lo, hi, v, w, v in mapFails, s0, x, alone);
        if !ok {
          return false;
        }
        v := v + 1;
      }
      return true;
    }

    /** One turn of the loop, and uvmdealloc if it fails. */
    method GrowTurn(t: nat, lo: nat, hi: nat, v: nat, w: bool, mapFails: bool, ghost s0: State, ghost x: set<Owner>,
                    ghost alone: bool) returns (ok: bool)
      requires Inv(s) && Kept(t, s0, s, x) && Growing(s, t, lo, hi, v, w) && v < hi
      requires {User(t, v), InFlight(t, 0)} <= x && Pages(t, lo, v) + {InFlight(t, 1)} <= x
      modifies this
      ensures Kept(t, s0, s, x) && (mapFails ==> !ok) && Lost(s, t) == Lost(old(s), t)
      ensures Growing(s, t, lo, hi, if ok then v + 1 else lo, w)
      ensures alone ==> (old(s).free != [] && !mapFails ==> ok) && (ok ==> |s.free| >= |old(s).free| - 1)
    {
      ghost var a := s;
      ok := GrowPage(t, v, w, mapFails, alone);
      KeptAbsorb(t, s0, a, s, x, {User(t, v), InFlight(t, 0)});
      OthersShown(a, s, t, {User(t, v), InFlight(t, 0)}, lo, hi, v);
      ZeroedKept(a, s, t, lo, v, w);
      if !ok {
        Dealloc(t, lo, hi, v, w, s0, x, alone);
      }
    }

    method Dealloc(t: nat, lo: nat, hi: nat, v: nat, w: bool, ghost s0: State, ghost x: set<Owner>, ghost alone: bool)
      requires Inv(s) && Kept(t, s0, s, x) && Growing(s, t, lo, hi, v, w)
      requires Pages(t, lo, v) + {InFlight(t, 1)} <= x
      modifies this
      ensures Kept(t, s0, s, x) && Growing(s, t, lo, hi, lo, w) && Lost(s, t) == Lost(old(s), t)
    {
      ghost var a := s;
      forall i | lo <= i < v ensures User(t, i) in s.own {
        assert Zeroed(s, t, i, w);
      }
      Uvmunmap(t, t, lo, v, alone);
      KeptAbsorb(t, s0, a, s, x, Pages(t, lo, v) + {InFlight(t, 1)});
      OthersShown(a, s, t, Pages(t, lo, v) + {InFlight(t, 1)}, v, hi, hi);
    }

    /** handle_cowbit. */
    method BreakSharing(t: nat, v: nat, ghost alone: bool) returns (alive: bool)
      requires Inv(s) && Ready(s, t) && Acts(s, t, t) && !Holds(s, t, 0) && !Holds(s, t, 1)
      requires User(t, v) in s.own
      modifies this
      ensures Kept(t, old(s), s, {User(t, v), InFlight(t, 0), InFlight(t, 1)})
      ensures !Holds(s, t, 0) && !Holds(s, t, 1) && Lost(s, t) == Lost(old(s), t)
      ensures Shows(s, User(t, v), old(s).mem[old(s).own[User(t, v)].ppn])
      ensures s.own[User(t, v)].Pte? && s.own[User(t, v)].u == old(s).own[User(t, v)].u
      ensures alive ==> !s.own[User(t, v)].cow
      ensures alone ==> (old(s).free != [] ==> alive) && |s.free| >= |old(s).free| - 1
    {
      alive := true;
      if s.own[User(t, v)].cow {
        alive := CopyPage(t, v, alone);
      }
    }

    /** One turn of copyout's loop on a mapped page: break copy-on-write, then write. */
    method CopyoutPage(t: nat, v: nat, off: nat, bytes: seq<int>, ghost alone: bool) returns (alive: bool)
      requires Inv(s) && Ready(s, t) && Acts(s, t, t) && !Holds(s, t, 0) && !Holds(s, t, 1)
      requires User(t, v) in s.own && off + |bytes| <= PGSIZE
      modifies this
      ensures Kept(t, old(s), s, {User(t, v), InFlight(t, 0), InFlight(t, 1)})
      ensures !Holds(s, t, 0) && !Holds(s, t, 1)
      ensures var data := old(s).mem[old(s).own[User(t, v)].ppn];
              Shows(s, User(t, v), if alive then Splice(data, off, bytes) else data)
      ensures User(t, v) in s.own && s.own[User(t, v)].u == old(s).own[User(t, v)].u
      ensures Lost(s, t) == Lost(old(s), t)
      ensures alone ==> (old(s).free != [] ==> alive) && |s.free| >= |old(s).free| - 1
    {
      ghost var x := {User(t, v), InFlight(t, 0), InFlight(t, 1)};
      ghost var s0 := s;
      alive := BreakSharing(t, v, alone);
      if alive {
        WriteBytes(t, v, off, bytes, s0, x, alone);
      }
    }

    /** The write itself, to a page of the process's own. */
    method WriteBytes(t: nat, v: nat, off: nat, bytes: seq<int>, ghost s0: State, ghost x: set<Owner>,
                      ghost alone: bool)
      requires Inv(s) && Enabled(s, Write(t, v, off, bytes)) && !Holds(s, t, 0) && !Holds(s, t, 1)
      requires Kept(t, s0, s, x) && User(t, v) in x
      modifies this
      ensures Kept(t, s0, s, x) && !Holds(s, t, 0) && !Holds(s, t, 1) && Lost(s, t) == Lost(old(s), t)
      ensures Shows(s, User(t, v), Splice(old(s).mem[old(s).own[User(t, v)].ppn], off, bytes))
      ensures s.own[User(t, v)] == old(s).own[User(t, v)]
      ensures alone ==> s.free == old(s).free
    {
      ghost var a := Next(s, Write(t, v, off, bytes));
      Act(Write(t, v, off, bytes), s0, x, alone);
      assert Unchanged(a, s, User(t, v)) && Unchanged(a, s, InFlight(t, 0)) && Unchanged(a, s, InFlight(t, 1));
    }

    /** copyout: the bytes land at dst and nowhere else in the process's memory. If it
        fails or the process is killed, the first `done` bytes have landed; it fails only
        where the next byte may not be written. */
    method Copyout(t: nat, dst: nat, src: seq<int>, ghost alone: bool) returns (ok: bool, alive: bool, ghost done: nat)
      requires Inv(s) && Ready(s, t) && Acts(s, t, t) && !Holds(s, t, 0) && !Holds(s, t, 1)
      modifies this
      ensures Inv(s) && Ready(s, t) && Acts(s, t, t) && !Holds(s, t, 0) && !Holds(s, t, 1)
      ensures done <= |src| && (ok ==> done == |src| && alive)
      ensures !ok && alive ==> done < |src| && Refused(s, t, dst + done)
      ensures Overlaid(old(s), s, t, dst, src[..done])
      ensures Lost(s, t) == Lost(old(s), t)
      ensures alone && |old(s).free| > (dst + |src|) / PGSIZE - dst / PGSIZE ==> alive
    {
      ghost var s0 := s;
      var i, a := 0, dst;
      ghost var turns := 0;
      OverlaidNothing(s, t, dst);
      assert src[..0] == [];
      while i < |src|
        invariant 0 <= i <= |src| && Inv(s) && Ready(s, t) && Acts(s, t, t) && !Holds(s, t, 0) && !Holds(s, t, 1)
        invariant i < |src| ==> a == dst + i
        invariant Overlaid(s0, s, t, dst, src[..i]) && Lost(s, t) == Lost(s0, t)
        invariant alone ==> |s.free| + turns >= |s0.free|
        invariant turns <= i && (i < |src| ==> turns == a / PGSIZE - dst / PGSIZE)
      {
        var n;
        n, a, alive := CopyoutTurn(t, dst, src, i, a, s0, alone);
        if n == 0 {
          return false, alive, i;
        }
        i, turns := i + n, turns + 1;
      }
      return true, true, i;
    }

    /** One turn of copyout's loop: the bytes that go into the page of a, 0 if there are none,
        and the address of the next page. */
    method CopyoutTurn(t: nat, dst: nat, src: seq<int>, i: nat, a: nat, ghost s0: State, ghost alone: bool)
      returns (n: nat, next: nat, alive: bool)
      requires Inv(s) && Ready(s, t) && Acts(s, t, t) && !Holds(s, t, 0) && !Holds(s, t, 1)
      requires i < |src| && a == dst + i && Overlaid(s0, s, t, dst, src[..i])
      modifies this
      ensures Inv(s) && Ready(s, t) && Acts(s, t, t) && !Holds(s, t, 0) && !Holds(s, t, 1)
      ensures i + n <= |src| && Overlaid(s0, s, t, dst, src[..i + n]) && (n > 0 ==> alive)
      ensures n == 0 && alive ==> Refused(s, t, a)
      ensures n > 0 && i + n < |src| ==> next == a + n && next / PGSIZE == a / PGSIZE + 1
      ensures Lost(s, t) == Lost(old(s), t)
      ensures alone ==> (old(s).free != [] ==> alive) && |s.free| >= |old(s).free| - 1
    {
      var v := a / PGSIZE;
      next := (v + 1) * PGSIZE;
      if v * PGSIZE >= MAXVA || v == 0 {
        return 0, next, true;
      }
      if User(t, v) !in s.own || !s.own[User(t, v)].u {
        return 0, next, true;
      }
      n := PageRest(a, |src| - i);
      alive := CopyoutPiece(t, dst, src, i, n, s0, alone);
      if !alive {
        n := 0;
      }
    }

    method CopyoutPiece(t: nat, dst: nat, src: seq<int>, i: nat, n: nat, ghost s0: State, ghost alone: bool)
      returns (alive: bool)
      requires Inv(s) && Ready(s, t) && Acts(s, t, t) && !Holds(s, t, 0) && !Holds(s, t, 1)
      requires i < |src| && 0 < n <= |src| - i && n <= PGSIZE - (dst + i) % PGSIZE
      requires User(t, (dst + i) / PGSIZE) in s.own && Overlaid(s0, s, t, dst, src[..i])
      modifies this
      ensures Inv(s) && Ready(s, t) && Acts(s, t, t) && !Holds(s, t, 0) && !Holds(s, t, 1)
      ensures Overlaid(s0, s, t, dst, src[..if alive then i + n else i])
      ensures Lost(s, t) == Lost(old(s), t)
      ensures alone ==> (old(s).free != [] ==> alive) && |s.free| >= |old(s).free| - 1
    {
      ghost var b := s;
      alive := CopyoutPage(t, (dst + i) / PGSIZE, (dst + i) % PGSIZE, src[i..i + n], alone);
      OverlaidTurn(s0, b, s, t, dst, src, i, n, alive);
    }

    /** A user store of one byte: the hardware faults unless the page is writable, and
        handle_trap_cow lets it proceed. Only that byte of the process's memory changes. */
    method Store(t: nat, addr: nat, byte: int, ghost alone: bool) returns (stored: bool, alive: bool)
      requires Inv(s) && Ready(s, t) && Acts(s, t, t) && !Holds(s, t, 0) && !Holds(s, t, 1)
      requires User(t, addr / PGSIZE) in s.own
      modifies this
      ensures Inv(s) && Ready(s, t) && Acts(s, t, t) && !Holds(s, t, 0) && !Holds(s, t, 1)
      ensures stored <==> alive && (old(s).own[User(t, addr / PGSIZE)].w || old(s).own[User(t, addr / PGSIZE)].cow)
      ensures Overlaid(old(s), s, t, addr, if stored then [byte] else [])
      ensures Lost(s, t) == Lost(old(s), t)
      ensures alone && old(s).free != [] ==> alive
    {
      var v := addr / PGSIZE;
      ghost var s0, x := s, {User(t, v), InFlight(t, 0), InFlight(t, 1)};
      alive := true;
      if !s.own[User(t, v)].w {
        alive := HandleTrapCow(t, v, alone);
      }
      stored := alive && s.own[User(t, v)].w;
      ghost var b := s;
      if stored {
        WriteBytes(t, v, addr % PGSIZE, [byte], s0, x, alone);
      }
      OnePageChanged(s0, s, t, addr, if stored then [byte] else []);
    }
  }
}
