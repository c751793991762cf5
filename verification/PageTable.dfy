/** walk, mappages, uvmunmap and freewalk of vm.c over page-table pages in memory. */
module PageTable {
  import opened Options
  import opened Collections
  import opened Params
  import opened PageTree

  ghost function Elements(s: seq<nat>): set<nat> {
    set x | x in s
  }

  /** The flat map of a whole table: what `Translate` says of every page below MAXVA. */
  ghost predicate SameMap(mem: Memory, mem': Memory, root: nat) {
    forall w :: 0 <= w < MAXVPN ==> Translate(mem', root, 2, w) == Translate(mem, root, 2, w)
  }

  /** perm | PTE_V. */
  function WithValid(perm: nat): (f: nat)
    requires perm < 1024
    ensures f < 1024 && f % 2 == 1 && f / 2 == perm / 2
  {
    if perm % 2 == 1 then perm else perm + 1
  }

  /** A valid entry for a physical page, with the bits of perm. */
  predicate PointsTo(pte: nat, ppn: nat, perm: nat) {
    ValidPte(pte) && Ppn(pte) == ppn && Flags(pte) / 2 == perm / 2
  }

  /** No last-level entry is valid. */
  ghost predicate Unmapped(mem: Memory, page: nat, level: nat)
    decreases level
  {
    page in mem &&
    if level == 0 then forall i :: 0 <= i < |mem[page]| ==> !ValidPte(mem[page][i])
    else forall i :: 0 <= i < ENTRIES && HasKid(mem, page, i) ==> Unmapped(mem, Kid(mem, page, i), level - 1)
  }

  /** freewalk after its first i entries: their tables are gone, the entries cleared. */
  ghost predicate Freeing(m0: Memory, mem: Memory, page: nat, level: nat, i: nat) {
    && Tree(m0, page, level) && Unmapped(m0, page, level)
    && page in mem && |mem[page]| == ENTRIES
    && (forall j :: i <= j < ENTRIES ==> mem[page][j] == m0[page][j])
    && mem - {page} == m0 - KidsReach(m0, page, level, i) - {page}
  }

  lemma KidsReachNext(mem: Memory, page: nat, level: nat, i: nat)
    ensures KidsReach(mem, page, level, i + 1) == KidsReach(mem, page, level, i) + KidReach(mem, page, level, i)
  {
    forall q ensures q in KidsReach(mem, page, level, i + 1)
                     <==> q in KidsReach(mem, page, level, i) + KidReach(mem, page, level, i)
    {
    }
  }

  lemma KidsDisjoint(mem: Memory, page: nat, level: nat, i: nat)
    requires Tree(mem, page, level) && i < ENTRIES
    ensures KidsReach(mem, page, level, i) !! KidReach(mem, page, level, i)
    ensures KidsReach(mem, page, level, i + 1) == KidsReach(mem, page, level, i) + KidReach(mem, page, level, i)
  {
    KidsReachNext(mem, page, level, i);
    if level > 0 {
      forall j | 0 <= j < i ensures KidReach(mem, page, level, j) !! KidReach(mem, page, level, i) {
      }
    }
  }

  lemma FreedTogether(a: seq<nat>, b: seq<nat>, x: set<nat>, y: set<nat>)
    requires NoRepeats(a) && NoRepeats(b) && Elements(a) == x && Elements(b) == y && x !! y
    ensures NoRepeats(b + a) && Elements(b + a) == x + y
  {
    forall i, j | 0 <= i < j < |b + a| ensures (b + a)[i] != (b + a)[j] {
      if i < |b| <= j {
        assert (b + a)[i] in Elements(b) && (b + a)[j] in Elements(a);
      }
    }
  }

  lemma TakeFirst(s: seq<nat>)
    requires s != []
    ensures Elements(s) == {s[0]} + Elements(s[1..])
  {
    forall x | x in s ensures x == s[0] || x in s[1..] {
      assert s == [s[0]] + s[1..];
    }
  }

  /** The next subtree to be freed is still whole. */
  lemma FreeingKid(m0: Memory, mem: Memory, page: nat, level: nat, i: nat)
    requires Freeing(m0, mem, page, level, i) && i < ENTRIES && ValidPte(mem[page][i]) && !LeafPte(mem[page][i])
    ensures level > 0 && HasKid(m0, page, i) && Kid(m0, page, i) == Ppn(mem[page][i])
    ensures SameOn(m0, mem, KidReach(m0, page, level, i))
    ensures Tree(mem, Kid(m0, page, i), level - 1) && Unmapped(mem, Kid(m0, page, i), level - 1)
    ensures Reach(mem, Kid(m0, page, i), level - 1) == KidReach(m0, page, level, i)
    ensures KidsReach(m0, page, level, i) !! KidReach(m0, page, level, i) && page !in KidReach(m0, page, level, i)
  {
    assert m0[page][i] == mem[page][i];
    assert KidTree(m0, page, level, i);
    var kid := Kid(m0, page, i);
    forall q | q in KidReach(m0, page, level, i)
      ensures q in m0 && q in mem && mem[q] == m0[q] && q !in KidsReach(m0, page, level, i)
    {
      ReachMapped(m0, kid, level - 1, q);
      forall j | 0 <= j < i ensures q !in KidReach(m0, page, level, j) {
        assert KidReach(m0, page, level, j) !! KidReach(m0, page, level, i);
      }
      assert q in m0 - KidsReach(m0, page, level, i) - {page};
      assert q in mem - {page};
      assert (mem - {page})[q] == (m0 - KidsReach(m0, page, level, i) - {page})[q];
    }
    Frame(m0, mem, kid, level - 1);
    UnmappedFrame(m0, mem, kid, level - 1);
  }

  lemma FreeingNext(m0: Memory, mem: Memory, mem': Memory, page: nat, level: nat, i: nat)
    requires Freeing(m0, mem, page, level, i) && i < ENTRIES
    requires page in mem' && |mem'[page]| == ENTRIES
    requires forall j :: i < j < ENTRIES ==> mem'[page][j] == mem[page][j]
    requires mem' - {page} == mem - {page} - KidReach(m0, page, level, i)
    ensures Freeing(m0, mem', page, level, i + 1)
  {
    KidsReachNext(m0, page, level, i);
    var gone, kid := KidsReach(m0, page, level, i), KidReach(m0, page, level, i);
    assert m0 - gone - {page} - kid == m0 - (gone + kid) - {page};
  }

  lemma FreeingNoKid(m0: Memory, mem: Memory, page: nat, level: nat, i: nat)
    requires Freeing(m0, mem, page, level, i) && i < ENTRIES && !(ValidPte(mem[page][i]) && !LeafPte(mem[page][i]))
    ensures KidReach(m0, page, level, i) == {} && !ValidPte(mem[page][i])
  {
    assert level > 0 ==> KidTree(m0, page, level, i);
    assert m0[page][i] == mem[page][i];
  }

  lemma {:induction false} UnmappedFrame(mem: Memory, mem': Memory, page: nat, level: nat)
    requires Tree(mem, page, level) && Unmapped(mem, page, level) && SameOn(mem, mem', Reach(mem, page, level))
    ensures Unmapped(mem', page, level)
    decreases level
  {
    assert page in Reach(mem, page, level);
    if level > 0 {
      forall i | 0 <= i < ENTRIES && HasKid(mem', page, i) ensures Unmapped(mem', Kid(mem', page, i), level - 1) {
        assert HasKid(mem, page, i) && KidTree(mem, page, level, i);
        UnmappedFrame(mem, mem', Kid(mem, page, i), level - 1);
      }
    }
  }

  /** All its subtrees gone, only the table itself is left. */
  lemma FreeingDone(m0: Memory, mem: Memory, page: nat, level: nat)
    requires Freeing(m0, mem, page, level, ENTRIES)
    ensures page !in KidsReach(m0, page, level, ENTRIES)
    ensures Reach(m0, page, level) == KidsReach(m0, page, level, ENTRIES) + {page}
    ensures mem - {page} == m0 - Reach(m0, page, level)
  {
    forall i | 0 <= i < ENTRIES ensures page !in KidReach(m0, page, level, i) {
      if level > 0 {
        assert KidTree(m0, page, level, i);
      }
    }
  }

  class PageTables {
    var mem: Memory          // the pages in use as page tables
    var free: seq<nat>       // the pages kalloc can still hand out

    ghost predicate Valid()
      reads this
    {
      NoRepeats(free) && forall q :: q in free ==> q !in mem
    }

    constructor (free: seq<nat>)
      requires NoRepeats(free)
      ensures Valid() && mem == map[] && this.free == free
    {
      mem, this.free := map[], free;
    }

    /** walk: the place of virtual page v's entry, as a table and an index into it. */
    method Walk(root: nat, v: nat, alloc: bool) returns (r: Option<(nat, nat)>)
      requires Valid() && Tree(mem, root, 2) && v < MAXVPN
      modifies this
      ensures Valid() && Tree(mem, root, 2) && SameMap(old(mem), mem, root)
      ensures !alloc ==> mem == old(mem) && free == old(free)
      ensures r.Some? ==> Descend(mem, root, 2, v, 0) == Some(r.value.0) && r.value.1 == Index(0, v)
      ensures r.None? ==> Descend(mem, root, 2, v, 0).None? && (alloc ==> free == [])
      ensures Differs(old(mem), mem, Reach(old(mem), root, 2))
      ensures Reach(mem, root, 2) + Elements(free) == Reach(old(mem), root, 2) + Elements(old(free))
    {
      var page, level := root, 2;
      while level > 0
        invariant 0 <= level <= 2
        invariant Valid() && Tree(mem, root, 2) && SameMap(old(mem), mem, root)
        invariant !alloc ==> mem == old(mem) && free == old(free)
        invariant Descend(mem, root, 2, v, level) == Some(page)
        invariant Differs(old(mem), mem, Reach(old(mem), root, 2))
        invariant Reach(mem, root, 2) + Elements(free) == Reach(old(mem), root, 2) + Elements(old(free))
      {
        DescendReach(mem, root, 2, v, level);
        DescendStep(mem, root, 2, v, level);
        var pte := mem[page][Index(level, v)];
        if ValidPte(pte) {
          page := Ppn(pte);
        } else {
          if !alloc || free == [] {
            DescendStops(mem, root, 2, v, level - 1);
            return None;
          }
          TakeFirst(free);
          page := Extend(root, v, level, page);
        }
        level := level - 1;
      }
      return Some((page, Index(0, v)));
    }

    /** The allocating branch of walk: a new zeroed table below `page`. */
    method Extend(root: nat, v: nat, level: nat, page: nat) returns (q: nat)
      requires Valid() && Tree(mem, root, 2) && v < MAXVPN && 0 < level <= 2 && free != []
      requires Descend(mem, root, 2, v, level) == Some(page) && page in mem && |mem[page]| == ENTRIES
      requires !HasKid(mem, page, Index(level, v))
      modifies this
      ensures Valid() && Tree(mem, root, 2) && SameMap(old(mem), mem, root)
      ensures Descend(mem, root, 2, v, level - 1) == Some(q)
      ensures q == old(free)[0] && free == old(free)[1..]
      ensures Reach(mem, root, 2) == Reach(old(mem), root, 2) + {q}
      ensures page in Reach(old(mem), root, 2) && mem == Grafted(old(mem), page, Index(level, v), q)
    {
      q := free[0];
      Graft(mem, root, 2, v, level, q);
      forall w | 0 <= w < MAXVPN
        ensures Translate(Grafted(mem, page, Index(level, v), q), root, 2, w) == Translate(mem, root, 2, w)
      {
        GraftTranslate(mem, root, 2, v, level, q, w);
      }
      free := free[1..];
      mem := mem[q := Zeroed()];
      var row: seq<nat> := mem[page][Index(level, v) := MakePte(q, 1)];
      mem := mem[page := row];
    }

    /** `*pte = x` for the entry walk found. */
    method SetPte(root: nat, v: nat, slot: (nat, nat), pte: nat)
      requires Valid() && Tree(mem, root, 2) && v < MAXVPN
      requires Descend(mem, root, 2, v, 0) == Some(slot.0) && slot.1 == Index(0, v)
      modifies `mem
      ensures Valid() && Tree(mem, root, 2) && Descend(mem, root, 2, v, 0).Some?
      ensures forall w :: 0 <= w < MAXVPN ==>
                Translate(mem, root, 2, w) == if w == v then pte else Translate(old(mem), root, 2, w)
      ensures Reach(mem, root, 2) == Reach(old(mem), root, 2) && Differs(old(mem), mem, Reach(old(mem), root, 2))
    {
      DescendReach(mem, root, 2, v, 0);
      SetEntry(mem, root, v, pte);
      SetLeafDescend(mem, root, 2, v, mem[slot.0][slot.1 := pte], v);
      var row: seq<nat> := mem[slot.0][slot.1 := pte];
      mem := mem[slot.0 := row];
    }

    /** The flat map after the first k pages of a mappages call. */
    ghost predicate MapsFirst(before: Memory, root: nat, first: nat, k: nat, ppn: nat, perm: nat)
      requires perm < 1024
      reads this
    {
      forall w :: 0 <= w < MAXVPN ==>
        Translate(mem, root, 2, w)
        == if first <= w < first + k then MakePte(ppn + (w - first), WithValid(perm))
           else Translate(before, root, 2, w)
    }

    /** mappages: maps exactly the pages that [va, va + size) touches to consecutive
        physical pages. If walk runs out of memory, the first k of them are mapped. */
    method Mappages(root: nat, va: nat, size: nat, pa: nat, perm: nat) returns (ok: bool, ghost k: nat)
      requires Valid() && Tree(mem, root, 2) && size > 0 && perm < 1024
      requires (va + size - 1) / PGSIZE < MAXVPN
      requires forall w :: va / PGSIZE <= w <= (va + size - 1) / PGSIZE ==> !ValidPte(Translate(mem, root, 2, w))
      modifies this
      ensures Valid() && Tree(mem, root, 2)
      ensures k <= (va + size - 1) / PGSIZE - va / PGSIZE + 1
      ensures MapsFirst(old(mem), root, va / PGSIZE, k, pa / PGSIZE, perm)
      ensures forall w :: va / PGSIZE <= w < va / PGSIZE + k ==>
                PointsTo(Translate(mem, root, 2, w), pa / PGSIZE + (w - va / PGSIZE), perm)
      ensures ok <==> k == (va + size - 1) / PGSIZE - va / PGSIZE + 1
      ensures !ok ==> free == []
      ensures Reach(mem, root, 2) + Elements(free) == Reach(old(mem), root, 2) + Elements(old(free))
    {
      var a, last, page := va / PGSIZE, (va + size - 1) / PGSIZE, pa / PGSIZE;
      k := 0;
      while true
        invariant Valid() && Tree(mem, root, 2) && a == va / PGSIZE + k <= last && page == pa / PGSIZE + k
        invariant MapsFirst(old(mem), root, va / PGSIZE, k, pa / PGSIZE, perm)
        invariant Reach(mem, root, 2) + Elements(free) == Reach(old(mem), root, 2) + Elements(old(free))
        decreases last - a
      {
        var mapped := MapOne(root, a, page, perm);
        if !mapped {
          return false, k;
        }
        k := k + 1;
        if a == last {
          return true, k;
        }
        a := a + 1;
        page := page + 1;
      }
    }

    /** The body of mappages' loop, up to the test of the last page. */
    method MapOne(root: nat, a: nat, page: nat, perm: nat) returns (ok: bool)
      requires Valid() && Tree(mem, root, 2) && a < MAXVPN && perm < 1024 && !ValidPte(Translate(mem, root, 2, a))
      modifies this
      ensures Valid() && Tree(mem, root, 2)
      ensures forall w :: 0 <= w < MAXVPN ==>
                Translate(mem, root, 2, w)
                == if ok && w == a then MakePte(page, WithValid(perm)) else Translate(old(mem), root, 2, w)
      ensures !ok ==> free == []
      ensures Reach(mem, root, 2) + Elements(free) == Reach(old(mem), root, 2) + Elements(old(free))
    {
      var r := Walk(root, a, true);
      if r.None? {
        return false;
      }
      SetPte(root, a, r.value, MakePte(page, WithValid(perm)));
      return true;
    }

    /** uvmunmap: clears the entries of exactly npages pages from va on, and hands their
        physical pages to kfree if asked, each once and in order. */
    method Uvmunmap(root: nat, va: nat, npages: nat, doFree: bool) returns (freed: seq<nat>)
      requires Valid() && Tree(mem, root, 2) && va % PGSIZE == 0 && va / PGSIZE + npages <= MAXVPN
      requires forall w :: va / PGSIZE <= w < va / PGSIZE + npages ==>
                 ValidPte(Translate(mem, root, 2, w)) && Flags(Translate(mem, root, 2, w)) != 1
      modifies this
      ensures Valid() && Tree(mem, root, 2) && free == old(free)
      ensures forall w :: 0 <= w < MAXVPN ==>
                Translate(mem, root, 2, w)
                == if va / PGSIZE <= w < va / PGSIZE + npages then 0 else Translate(old(mem), root, 2, w)
      ensures |freed| == if doFree then npages else 0
      ensures forall i :: 0 <= i < |freed| ==> freed[i] == Ppn(Translate(old(mem), root, 2, va / PGSIZE + i))
    {
      ghost var before := mem;
      var first := va / PGSIZE;
      var a := first;
      freed := [];
      while a < first + npages
        invariant first <= a <= first + npages
        invariant Valid() && Tree(mem, root, 2) && free == old(free)
        invariant forall w :: 0 <= w < MAXVPN ==>
                    Translate(mem, root, 2, w) == if first <= w < a then 0 else Translate(before, root, 2, w)
        invariant |freed| == if doFree then a - first else 0
        invariant forall i :: 0 <= i < |freed| ==> freed[i] == Ppn(Translate(before, root, 2, first + i))
      {
        var ppn := UnmapOne(root, a);
        if doFree {
          freed := freed + [ppn];
        }
        a := a + 1;
      }
    }

    /** The body of uvmunmap's loop. */
    method UnmapOne(root: nat, a: nat) returns (ppn: nat)
      requires Valid() && Tree(mem, root, 2) && a < MAXVPN && ValidPte(Translate(mem, root, 2, a))
      modifies this
      ensures Valid() && Tree(mem, root, 2) && free == old(free)
      ensures ppn == Ppn(Translate(old(mem), root, 2, a))
      ensures forall w :: 0 <= w < MAXVPN ==>
                Translate(mem, root, 2, w) == if w == a then 0 else Translate(old(mem), root, 2, w)
    {
      var r := Walk(root, a, false);
      assert mem == old(mem) && r.Some?;
      DescendReach(mem, root, 2, a, 0);
      ppn := Ppn(mem[r.value.0][r.value.1]);
      SetPte(root, a, r.value, 0);
    }

    method ClearEntry(page: nat, i: nat)
      requires Valid() && page in mem && i < |mem[page]|
      modifies `mem
      ensures Valid() && page in mem && mem[page] == old(mem)[page][i := 0]
      ensures mem - {page} == old(mem) - {page}
    {
      var row: seq<nat> := mem[page][i := 0];
      mem := mem[page := row];
    }

    /** kfree of a page that was a page table. */
    method Kfree(page: nat)
      requires Valid() && page in mem
      modifies this
      ensures Valid() && mem == old(mem) - {page} && free == [page] + old(free)
    {
      mem := mem - {page};
      free := [page] + free;
    }

    /** freewalk of a table whose leaf entries have all been removed: every table of the
        tree goes to the free list exactly once, and no other page changes. */
    method Freewalk(page: nat, ghost level: nat) returns (ghost freed: seq<nat>)
      requires Valid() && level <= 2 && Tree(mem, page, level) && Unmapped(mem, page, level)
      modifies this
      ensures Valid()
      ensures mem == old(mem) - Reach(old(mem), page, level)
      ensures free == freed + old(free)
      ensures NoRepeats(freed) && Elements(freed) == Reach(old(mem), page, level)
      decreases level, 1
    {
      ghost var m0, f0 := mem, free;
      freed := [];
      var i := 0;
      while i < ENTRIES
        invariant 0 <= i <= ENTRIES && Valid() && Freeing(m0, mem, page, level, i)
        invariant free == freed + f0
        invariant NoRepeats(freed) && Elements(freed) == KidsReach(m0, page, level, i)
      {
        KidsDisjoint(m0, page, level, i);
        ghost var more := FreeEntry(m0, page, level, i);
        FreedTogether(freed, more, KidsReach(m0, page, level, i), KidReach(m0, page, level, i));
        freed := more + freed;
        i := i + 1;
      }
      FreeingDone(m0, mem, page, level);
      FreedTogether(freed, [page], KidsReach(m0, page, level, ENTRIES), {page});
      Kfree(page);
      freed := [page] + freed;
    }

    /** The body of freewalk's loop: free the subtree under entry i, if there is one. */
    method FreeEntry(ghost m0: Memory, page: nat, ghost level: nat, i: nat) returns (ghost more: seq<nat>)
      requires Valid() && level <= 2 && i < ENTRIES && Freeing(m0, mem, page, level, i)
      modifies this
      ensures Valid() && Freeing(m0, mem, page, level, i + 1)
      ensures free == more + old(free)
      ensures NoRepeats(more) && Elements(more) == KidReach(m0, page, level, i)
      decreases level, 0
    {
      var pte := mem[page][i];
      ghost var m := mem;
      if ValidPte(pte) && !LeafPte(pte) {
        FreeingKid(m0, mem, page, level, i);
        more := Freewalk(Ppn(pte), level - 1);
        ClearEntry(page, i);
      } else {
        FreeingNoKid(m0, mem, page, level, i);
        more := [];
      }
      FreeingNext(m0, m, mem, page, level, i);
    }
  }
}
