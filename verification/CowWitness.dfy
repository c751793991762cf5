/** Two runs from boot on a machine with one page: a fork that fails in mappages, and the window
    of uvmunmap in which a page is free and still in a page table. */
module CowWitness {
  import opened CowMachine
  import opened CowSafety
  import opened CowWindow
  import opened CowRefinement

  /** A state of such a machine. */
  function OnePage(cnt: int, free: seq<nat>, own: map<Owner, Holding>, stale: map<nat, Stale>): State {
    State([Junk()], [cnt], free, own, map[0 := 0], map[], stale, [0], map[])
  }

  /** Slot 0 of thread 0 has the page. */
  function Held(cnt: int, h: Holding, stale: map<nat, Stale>): State {
    OnePage(cnt, [], map[InFlight(0, 0) := h], stale)
  }

  /** Process 0 has the page. */
  function InUse(w: bool, cow: bool): State {
    OnePage(1, [], map[User(0, 0) := Pte(0, w, cow, true)], map[])
  }

  const Unmapping: map<nat, Stale> := map[0 := Stale(0, 0, 0, Pte(0, true, false, true))]

  lemma DoSpawn(p: Page)
    ensures Inv(Boot([p])) && Reaches(Boot([p]), [Spawn(0, 0)], Boot([p]).(actor := map[0 := 0]))
  {
    BootInv([p]);
    ReachesOne(Boot([p]), Spawn(0, 0));
  }

  lemma DoPop(s: State, a: seq<Step>, p: Page)
    requires Inv(s) && Reaches(s, a, Boot([p]).(actor := map[0 := 0]))
    ensures Reaches(s, a + [Pop(0, 0)], Held(0, Raw(0), map[]))
  {
    var r := Boot([p]).(actor := map[0 := 0]);
    assert r.free[1..] == [] && r.mem[0 := Junk()] == [Junk()];
    ReachesNext(s, a, r, Pop(0, 0), Held(0, Raw(0), map[]));
  }

  lemma DoSetCount(s: State, a: seq<Step>)
    requires Inv(s) && Reaches(s, a, Held(0, Raw(0), map[]))
    ensures Reaches(s, a + [SetCount(0, 0)], Held(1, Fresh(0), map[]))
  {
    ReachesNext(s, a, Held(0, Raw(0), map[]), SetCount(0, 0), Held(1, Fresh(0), map[]));
  }

  lemma DoMapNew(s: State, a: seq<Step>)
    requires Inv(s) && Reaches(s, a, Held(1, Fresh(0), map[]))
    ensures Reaches(s, a + [MapNew(0, 0, 0, 0, true, true)], InUse(true, false))
  {
    ReachesNext(s, a, Held(1, Fresh(0), map[]), MapNew(0, 0, 0, 0, true, true), InUse(true, false));
  }

  /** Process 0 gets a page: allocproc, kalloc, mappages. */
  lemma Setup(p: Page) returns (steps: seq<Step>)
    ensures Inv(Boot([p])) && Reaches(Boot([p]), steps, InUse(true, false)) && NoLeak(steps)
  {
    DoSpawn(p);
    steps := [Spawn(0, 0)];
    DoPop(Boot([p]), steps, p);
    steps := steps + [Pop(0, 0)];
    DoSetCount(Boot([p]), steps);
    steps := steps + [SetCount(0, 0)];
    DoMapNew(Boot([p]), steps);
    steps := steps + [MapNew(0, 0, 0, 0, true, true)];
  }

  /** The page marked copy-on-write and counted once more. */
  function Counted(): State {
    OnePage(2, [], map[User(0, 0) := Pte(0, false, true, true), InFlight(0, 0) := Shared(0)], map[])
  }

  lemma DoSetCow(s: State, a: seq<Step>)
    requires Inv(s) && Reaches(s, a, InUse(true, false))
    ensures Reaches(s, a + [SetCow(0, 0, 0)], InUse(true, true))
  {
    ReachesNext(s, a, InUse(true, false), SetCow(0, 0, 0), InUse(true, true));
  }

  lemma DoClearW(s: State, a: seq<Step>)
    requires Inv(s) && Reaches(s, a, InUse(true, true))
    ensures Reaches(s, a + [ClearW(0, 0, 0)], InUse(false, true))
  {
    ReachesNext(s, a, InUse(true, true), ClearW(0, 0, 0), InUse(false, true));
  }

  lemma DoDeclare(s: State, a: seq<Step>)
    requires Inv(s) && Reaches(s, a, InUse(false, true))
    ensures Reaches(s, a + [Declare(0, 0, 0, 0)], Counted())
  {
    ReachesNext(s, a, InUse(false, true), Declare(0, 0, 0, 0), Counted());
  }

  lemma DoLeak(s: State, a: seq<Step>)
    requires Inv(s) && Reaches(s, a, Counted())
    ensures Legal(s, a) && Enabled(After(s, a), Leak(0, 0)) && Legal(s, a + [Leak(0, 0)])
  {
    ReachesNext(s, a, Counted(), Leak(0, 0), Next(Counted(), Leak(0, 0)));
  }

  /** The run of a fork up to the count of its first page. */
  lemma ForkCounts(p: Page) returns (steps: seq<Step>)
    ensures Inv(Boot([p])) && Reaches(Boot([p]), steps, Counted()) && NoLeak(steps)
  {
    steps := Setup(p);
    DoSetCow(Boot([p]), steps);
    steps := steps + [SetCow(0, 0, 0)];
    DoClearW(Boot([p]), steps);
    steps := steps + [ClearW(0, 0, 0)];
    DoDeclare(Boot([p]), steps);
    steps := steps + [Declare(0, 0, 0, 0)];
  }

  lemma LeakLast(a: seq<Step>)
    ensures !NoLeak(a + [Leak(0, 0)])
  {
    assert (a + [Leak(0, 0)])[|a|] == Leak(0, 0);
  }

  /** A fork whose mappages fails on its first page. */
  lemma ForkCanFail(p: Page) returns (steps: seq<Step>)
    ensures Inv(Boot([p])) && Exact(Boot([p])) && Legal(Boot([p]), steps) && NoLeak(steps)
    ensures Enabled(After(Boot([p]), steps), Leak(0, 0))
    ensures Legal(Boot([p]), steps + [Leak(0, 0)]) && !Exact(After(Boot([p]), steps + [Leak(0, 0)]))
  {
    steps := ForkCounts(p);
    DoLeak(Boot([p]), steps);
    BootExact(p);
    LeakLast(steps);
    ExactUnlessLeaked(Boot([p]), steps + [Leak(0, 0)]);
  }

  lemma BootExact(p: Page)
    ensures Exact(Boot([p]))
  {
    var s := Boot([p]);
    forall q | 0 <= q < |s.cnt| ensures s.cnt[q] == |Counts(s.own, q)| {
      assert Counts(s.own, q) == {};
    }
  }

  lemma DoUnmap(s: State, a: seq<Step>)
    requires Inv(s) && Reaches(s, a, InUse(true, false))
    ensures Reaches(s, a + [Unmap(0, 0, 0, 0)], Held(1, Shared(0), Unmapping))
  {
    ReachesNext(s, a, InUse(true, false), Unmap(0, 0, 0, 0), Held(1, Shared(0), Unmapping));
  }

  lemma DoDrop(s: State, a: seq<Step>)
    requires Inv(s) && Reaches(s, a, Held(1, Shared(0), Unmapping))
    ensures Reaches(s, a + [Drop(0, 0)], Held(0, Raw(0), Unmapping))
  {
    ReachesNext(s, a, Held(1, Shared(0), Unmapping), Drop(0, 0), Held(0, Raw(0), Unmapping));
  }

  lemma DoPush(s: State, a: seq<Step>)
    requires Inv(s) && Reaches(s, a, Held(0, Raw(0), Unmapping))
    ensures Reaches(s, a + [Push(0, 0)], OnePage(0, [0], map[], Unmapping))
  {
    ReachesNext(s, a, Held(0, Raw(0), Unmapping), Push(0, 0), OnePage(0, [0], map[], Unmapping));
  }

  /** Between kfree and the clearing of the entry, the page is on the free list while the page
      table still leads to it. */
  lemma FreedWhileInTable(p: Page) returns (steps: seq<Step>)
    ensures Inv(Boot([p])) && Legal(Boot([p]), steps)
    ensures var r := After(Boot([p]), steps);
            User(0, 0) in Table(r) && Table(r)[User(0, 0)].ppn in r.free && r.cnt[0] == 0
  {
    steps := Setup(p);
    DoUnmap(Boot([p]), steps);
    steps := steps + [Unmap(0, 0, 0, 0)];
    DoDrop(Boot([p]), steps);
    steps := steps + [Drop(0, 0)];
    DoPush(Boot([p]), steps);
    steps := steps + [Push(0, 0)];
    TableStale(OnePage(0, [0], map[], Unmapping), User(0, 0));
  }
}
