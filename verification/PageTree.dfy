/** Sv39 page tables as trees of 512-entry tables in physical memory.

    Addresses are page numbers: table page q occupies physical page q, and virtual page v
    is va / PGSIZE. Entries are the 64-bit words themselves. */
module PageTree {
  import opened Options

  const ENTRIES: nat := 512
  const MAXVPN: nat := 0x400_0000        // MAXVA / PGSIZE

  type Memory = map<nat, seq<nat>>

  predicate ValidPte(pte: nat) {
    pte % 2 == 1
  }

  /** PTE2PA, as a page number. */
  function Ppn(pte: nat): nat {
    pte / 1024
  }

  function Flags(pte: nat): nat {
    pte % 1024
  }

  /** PA2PTE(pa) | flags. */
  function MakePte(ppn: nat, flags: nat): (pte: nat)
    requires flags < 1024
    ensures Ppn(pte) == ppn && Flags(pte) == flags && (ValidPte(pte) <==> flags % 2 == 1)
    ensures LeafPte(pte) <==> flags / 2 % 8 != 0
  {
    LeafBits(ppn, flags);
    ppn * 1024 + flags
  }

  lemma LeafBits(ppn: nat, flags: nat)
    requires flags < 1024
    ensures (ppn * 1024 + flags) / 2 % 8 == flags / 2 % 8
    ensures (ppn * 1024 + flags) / 1024 == ppn && (ppn * 1024 + flags) % 1024 == flags
    ensures (ppn * 1024 + flags) % 2 == flags % 2
  {
    assert ppn * 1024 + flags == 2 * (ppn * 512 + flags / 2) + flags % 2;
    assert ppn * 512 + flags / 2 == 8 * (ppn * 64 + flags / 2 / 8) + flags / 2 % 8;
  }

  /** Any of the R, W and X bits: the entry maps a page rather than pointing to a table. */
  predicate LeafPte(pte: nat) {
    pte / 2 % 8 != 0
  }

  /** Virtual pages covered by one entry of a table at this level. */
  function Span(level: nat): (n: nat)
    requires level <= 2
    ensures n > 0
  {
    if level == 0 then 1 else if level == 1 then 512 else 262144
  }

  /** PX(level, va) for va in page v. */
  function Index(level: nat, v: nat): (i: nat)
    requires level <= 2
    ensures i < ENTRIES
  {
    v / Span(level) % ENTRIES
  }

  /** The PX macro, on byte addresses. */
  function Px(level: nat, va: nat): nat
    requires level <= 2
  {
    va / (if level == 0 then 0x1000 else if level == 1 then 0x20_0000 else 0x4000_0000) % 512
  }

  lemma PxIndex(level: nat, va: nat)
    requires level <= 2
    ensures Px(level, va) == Index(level, va / 4096)
  {
    TwiceDivided(va);
  }

  lemma TwiceDivided(va: nat)
    ensures va / 2097152 == va / 4096 / 512
    ensures va / 1073741824 == va / 4096 / 262144
  {
  }

  /** The tables of the tree under `page`. */
  ghost function Reach(mem: Memory, page: nat, level: nat): set<nat>
    decreases level, 1
  {
    {page} + if level == 0 then {} else set i, q | 0 <= i < ENTRIES && q in KidReach(mem, page, level, i) :: q
  }

  /** Those under its first n entries. */
  ghost function KidsReach(mem: Memory, page: nat, level: nat, n: nat): set<nat> {
    set i, q | 0 <= i < n && q in KidReach(mem, page, level, i) :: q
  }

  /** Those under its entry i. */
  ghost function KidReach(mem: Memory, page: nat, level: nat, i: nat): set<nat>
    decreases level, 0
  {
    if level > 0 && HasKid(mem, page, i) then Reach(mem, Kid(mem, page, i), level - 1) else {}
  }

  predicate HasKid(mem: Memory, page: nat, i: nat) {
    page in mem && i < |mem[page]| && ValidPte(mem[page][i])
  }

  function Kid(mem: Memory, page: nat, i: nat): nat
    requires HasKid(mem, page, i)
  {
    Ppn(mem[page][i])
  }

  /** A well-formed tree: entries above the last level point to tables, and no table is
      reached along two paths. */
  ghost predicate Tree(mem: Memory, page: nat, level: nat)
    decreases level, 1
  {
    && page in mem && |mem[page]| == ENTRIES
    && (level > 0 ==>
          && (forall i :: 0 <= i < ENTRIES ==> KidTree(mem, page, level, i))
          && (forall i, j :: 0 <= i < j < ENTRIES ==> KidReach(mem, page, level, i) !! KidReach(mem, page, level, j)))
  }

  ghost predicate KidTree(mem: Memory, page: nat, level: nat, i: nat)
    requires level > 0
    decreases level, 0
  {
    HasKid(mem, page, i) ==>
      && !LeafPte(mem[page][i])
      && Tree(mem, Kid(mem, page, i), level - 1)
      && page !in KidReach(mem, page, level, i)
  }

  /** The table at level `to` on the way to virtual page v, if the tree goes that far. */
  ghost function Descend(mem: Memory, page: nat, level: nat, v: nat, to: nat): Option<nat>
    requires level <= 2 && to <= level
    decreases level
  {
    if level == to then Some(page)
    else if !HasKid(mem, page, Index(level, v)) then None
    else Descend(mem, Kid(mem, page, Index(level, v)), level - 1, v, to)
  }

  /** The flat map the tree stands for: the entry for virtual page v, 0 if there is none. */
  ghost function Translate(mem: Memory, page: nat, level: nat, v: nat): nat
    requires level <= 2
  {
    match Descend(mem, page, level, v, 0)
    case None => 0
    case Some(p) => if p in mem && |mem[p]| == ENTRIES then mem[p][Index(0, v)] else 0
  }

  ghost predicate SameOn(mem: Memory, mem': Memory, pages: set<nat>) {
    forall q :: q in pages ==> q in mem && q in mem' && mem'[q] == mem[q]
  }

  /** A tree depends only on the tables it reaches. */
  lemma {:induction false} Frame(mem: Memory, mem': Memory, page: nat, level: nat)
    requires Tree(mem, page, level)
    requires SameOn(mem, mem', Reach(mem, page, level))
    ensures Tree(mem', page, level) && Reach(mem', page, level) == Reach(mem, page, level)
    decreases level
  {
    assert page in Reach(mem, page, level);
    if level > 0 {
      forall i | 0 <= i < ENTRIES
        ensures KidTree(mem', page, level, i) && KidReach(mem', page, level, i) == KidReach(mem, page, level, i)
      {
        assert KidTree(mem, page, level, i);
        if HasKid(mem, page, i) {
          Frame(mem, mem', Kid(mem, page, i), level - 1);
        }
      }
    }
  }

  lemma {:induction false} FrameDescend(mem: Memory, mem': Memory, page: nat, level: nat, v: nat, to: nat)
    requires Tree(mem, page, level) && to <= level <= 2
    requires SameOn(mem, mem', Reach(mem, page, level))
    ensures Descend(mem', page, level, v, to) == Descend(mem, page, level, v, to)
    decreases level
  {
    assert page in Reach(mem, page, level);
    if to < level && HasKid(mem, page, Index(level, v)) {
      assert KidTree(mem, page, level, Index(level, v));
      FrameDescend(mem, mem', Kid(mem, page, Index(level, v)), level - 1, v, to);
    }
  }

  lemma {:induction false} ReachMapped(mem: Memory, page: nat, level: nat, q: nat)
    requires Tree(mem, page, level) && q in Reach(mem, page, level)
    ensures q in mem && |mem[q]| == ENTRIES
    decreases level
  {
    if q != page {
      var i :| 0 <= i < ENTRIES && q in KidReach(mem, page, level, i);
      assert KidTree(mem, page, level, i);
      ReachMapped(mem, Kid(mem, page, i), level - 1, q);
    }
  }

  /** Descending stays inside the tree. */
  lemma {:induction false} DescendReach(mem: Memory, page: nat, level: nat, v: nat, to: nat)
    requires Tree(mem, page, level) && to <= level <= 2
    ensures Descend(mem, page, level, v, to).Some? ==>
              var p := Descend(mem, page, level, v, to).value;
              p in Reach(mem, page, level) && Tree(mem, p, to)
    decreases level
  {
    if to < level && HasKid(mem, page, Index(level, v)) {
      assert KidTree(mem, page, level, Index(level, v));
      DescendReach(mem, Kid(mem, page, Index(level, v)), level - 1, v, to);
      assert forall q :: q in KidReach(mem, page, level, Index(level, v)) ==> q in Reach(mem, page, level);
    }
  }

  /** The three 9-bit indices determine the page number. */
  lemma Digits(v: nat)
    ensures v % 262144 == v / 512 % 512 * 512 + v % 512
    ensures v == v / 262144 * 262144 + v % 262144
    ensures v < MAXVPN ==> v / 262144 % 512 == v / 262144
  {
    assert v == 512 * (v / 512) + v % 512;
    assert v / 512 == 512 * (v / 512 / 512) + v / 512 % 512;
    assert v == 262144 * (v / 512 / 512) + (v / 512 % 512 * 512 + v % 512);
  }

  lemma IndexInjective(level: nat, v: nat, w: nat)
    requires 0 < level <= 2
    requires Index(level, v) == Index(level, w) && v % Span(level) == w % Span(level)
    ensures level == 2 || v % Span(level + 1) == w % Span(level + 1)
    ensures level == 2 && v < MAXVPN && w < MAXVPN ==> v == w
  {
    Digits(v);
    Digits(w);
  }

  /** Different virtual pages have their entries in different places. */
  lemma {:induction false} SlotsDistinct(mem: Memory, page: nat, level: nat, v: nat, w: nat)
    requires Tree(mem, page, level) && level <= 2
    requires Descend(mem, page, level, v, 0).Some? && Descend(mem, page, level, v, 0) == Descend(mem, page, level, w, 0)
    requires Index(0, v) == Index(0, w)
    ensures level < 2 ==> v % Span(level + 1) == w % Span(level + 1)
    ensures level == 2 && v < MAXVPN && w < MAXVPN ==> v == w
    decreases level
  {
    if level > 0 {
      var i, j := Index(level, v), Index(level, w);
      var p := Descend(mem, page, level, v, 0).value;
      assert KidTree(mem, page, level, i) && KidTree(mem, page, level, j);
      DescendReach(mem, Kid(mem, page, i), level - 1, v, 0);
      DescendReach(mem, Kid(mem, page, j), level - 1, w, 0);
      assert p in KidReach(mem, page, level, i) && p in KidReach(mem, page, level, j);
      assert i == j;
      SlotsDistinct(mem, Kid(mem, page, i), level - 1, v, w);
      IndexInjective(level, v, w);
    }
  }

  /** mem' differs from mem at most in `changed`. */
  ghost predicate Differs(mem: Memory, mem': Memory, changed: set<nat>) {
    forall q :: q in mem && q !in changed ==> q in mem' && mem'[q] == mem[q]
  }

  /** Changing one subtree, possibly adding new tables to it, leaves a well-formed tree. */
  lemma ReplaceKid(mem: Memory, mem': Memory, page: nat, level: nat, k: nat, extra: set<nat>)
    requires Tree(mem, page, level) && level > 0 && k < ENTRIES && HasKid(mem, page, k)
    requires Differs(mem, mem', KidReach(mem, page, level, k))
    requires Tree(mem', Kid(mem, page, k), level - 1)
    requires Reach(mem', Kid(mem, page, k), level - 1) == KidReach(mem, page, level, k) + extra
    requires extra !! Reach(mem, page, level)
    ensures Tree(mem', page, level) && Reach(mem', page, level) == Reach(mem, page, level) + extra
  {
    assert KidTree(mem, page, level, k);
    forall i | 0 <= i < ENTRIES
      ensures KidTree(mem', page, level, i)
      ensures KidReach(mem', page, level, i) == KidReach(mem, page, level, i) + (if i == k then extra else {})
      ensures KidReach(mem, page, level, i) <= Reach(mem, page, level)
    {
      assert KidTree(mem, page, level, i);
      if i != k && HasKid(mem, page, i) {
        KidUntouched(mem, mem', page, level, i, k);
      }
    }
    KidsTogether(mem, mem', page, level, k, extra);
  }

  lemma KidUntouched(mem: Memory, mem': Memory, page: nat, level: nat, i: nat, k: nat)
    requires Tree(mem, page, level) && level > 0 && i < ENTRIES && k < ENTRIES && i != k && HasKid(mem, page, i)
    requires Differs(mem, mem', KidReach(mem, page, level, k))
    ensures Tree(mem', Kid(mem, page, i), level - 1)
    ensures Reach(mem', Kid(mem, page, i), level - 1) == KidReach(mem, page, level, i)
  {
    assert KidTree(mem, page, level, i);
    assert KidReach(mem, page, level, i) !! KidReach(mem, page, level, k);
    forall q | q in KidReach(mem, page, level, i) ensures q in mem && q in mem' && mem'[q] == mem[q] {
      ReachMapped(mem, Kid(mem, page, i), level - 1, q);
    }
    Frame(mem, mem', Kid(mem, page, i), level - 1);
  }

  lemma KidsTogether(mem: Memory, mem': Memory, page: nat, level: nat, k: nat, extra: set<nat>)
    requires level > 0 && k < ENTRIES
    requires forall i :: 0 <= i < ENTRIES ==>
               KidReach(mem', page, level, i) == KidReach(mem, page, level, i) + (if i == k then extra else {})
    ensures Reach(mem', page, level) == Reach(mem, page, level) + extra
  {
    forall q ensures q in Reach(mem', page, level) <==> q in Reach(mem, page, level) + extra {
      if q in Reach(mem, page, level) && q != page {
        var i :| 0 <= i < ENTRIES && q in KidReach(mem, page, level, i);
        assert q in KidReach(mem', page, level, i);
      }
      if q in extra {
        assert q in KidReach(mem', page, level, k);
      }
    }
  }

  /** Writing an entry of a last-level table moves no entry of any page. */
  lemma {:induction false} SetLeaf(mem: Memory, page: nat, level: nat, v: nat, row: seq<nat>)
    requires Tree(mem, page, level) && level <= 2 && Descend(mem, page, level, v, 0).Some? && |row| == ENTRIES
    ensures var p := Descend(mem, page, level, v, 0).value;
            var mem' := mem[p := row];
            && Tree(mem', page, level) && Reach(mem', page, level) == Reach(mem, page, level)
    decreases level
  {
    if level > 0 {
      var k := Index(level, v);
      var kid := Kid(mem, page, k);
      var p := Descend(mem, page, level, v, 0).value;
      assert KidTree(mem, page, level, k);
      SetLeaf(mem, kid, level - 1, v, row);
      DescendReach(mem, kid, level - 1, v, 0);
      ReplaceKid(mem, mem[p := row], page, level, k, {});
    }
  }

  lemma {:induction false} SetLeafDescend(mem: Memory, page: nat, level: nat, v: nat, row: seq<nat>, w: nat)
    requires Tree(mem, page, level) && level <= 2 && Descend(mem, page, level, v, 0).Some? && |row| == ENTRIES
    ensures var mem' := mem[Descend(mem, page, level, v, 0).value := row];
            Descend(mem', page, level, w, 0) == Descend(mem, page, level, w, 0)
    decreases level
  {
    if level > 0 {
      var k, j := Index(level, v), Index(level, w);
      var mem' := mem[Descend(mem, page, level, v, 0).value := row];
      assert KidTree(mem, page, level, k) && KidTree(mem, page, level, j);
      DescendReach(mem, Kid(mem, page, k), level - 1, v, 0);
      if j == k {
        SetLeafDescend(mem, Kid(mem, page, k), level - 1, v, row, w);
      } else if HasKid(mem, page, j) {
        assert KidReach(mem, page, level, j) !! KidReach(mem, page, level, k);
        forall q | q in KidReach(mem, page, level, j) ensures q in mem && mem'[q] == mem[q] {
          ReachMapped(mem, Kid(mem, page, j), level - 1, q);
        }
        FrameDescend(mem, mem', Kid(mem, page, j), level - 1, w, 0);
      }
    }
  }

  function Zeroed(): (row: seq<nat>)
    ensures |row| == ENTRIES
  {
    seq(ENTRIES, i => 0)
  }

  /** Memory after walk has hung a new zeroed table q from `cur`. */
  function Grafted(mem: Memory, cur: nat, i: nat, q: nat): Memory
    requires cur in mem && i < |mem[cur]|
  {
    mem[q := Zeroed()][cur := mem[cur][i := MakePte(q, 1)]]
  }

  lemma NewTable(mem: Memory, q: nat, level: nat)
    requires q in mem && mem[q] == Zeroed()
    ensures Tree(mem, q, level) && Reach(mem, q, level) == {q}
  {
    forall i | 0 <= i < ENTRIES ensures KidReach(mem, q, level, i) == {} && !HasKid(mem, q, i) {
    }
  }

  /** The subtrees beside the new table are as before. */
  lemma GraftBeside(mem: Memory, cur: nat, level: nat, i: nat, q: nat, j: nat)
    requires Tree(mem, cur, level) && 0 < level <= 2 && i < ENTRIES && !HasKid(mem, cur, i) && q !in mem
    requires j < ENTRIES && HasKid(mem, cur, j)
    ensures SameOn(mem, Grafted(mem, cur, i, q), KidReach(mem, cur, level, j))
    ensures q !in KidReach(mem, cur, level, j)
    ensures Tree(mem, Kid(mem, cur, j), level - 1) && cur !in KidReach(mem, cur, level, j)
  {
    assert KidTree(mem, cur, level, j);
    forall p | p in KidReach(mem, cur, level, j) ensures p in mem {
      ReachMapped(mem, Kid(mem, cur, j), level - 1, p);
    }
  }

  lemma GraftKid(mem: Memory, cur: nat, level: nat, i: nat, q: nat, j: nat)
    requires Tree(mem, cur, level) && 0 < level <= 2 && i < ENTRIES && !HasKid(mem, cur, i) && q !in mem
    requires j < ENTRIES
    ensures var mem' := Grafted(mem, cur, i, q);
            && KidTree(mem', cur, level, j)
            && KidReach(mem', cur, level, j) == KidReach(mem, cur, level, j) + (if j == i then {q} else {})
    ensures q !in KidReach(mem, cur, level, j)
  {
    var mem' := Grafted(mem, cur, i, q);
    if j == i {
      NewTable(mem', q, level - 1);
      assert HasKid(mem', cur, i) && Kid(mem', cur, i) == q && KidReach(mem', cur, level, i) == {q};
    } else if HasKid(mem, cur, j) {
      assert KidTree(mem, cur, level, j);
      GraftBeside(mem, cur, level, i, q, j);
      Frame(mem, mem', Kid(mem, cur, j), level - 1);
    }
  }

  lemma GraftHere(mem: Memory, cur: nat, level: nat, i: nat, q: nat)
    requires Tree(mem, cur, level) && 0 < level <= 2 && i < ENTRIES && !HasKid(mem, cur, i) && q !in mem
    ensures var mem' := Grafted(mem, cur, i, q);
            && Tree(mem', cur, level) && Reach(mem', cur, level) == Reach(mem, cur, level) + {q}
            && HasKid(mem', cur, i) && Kid(mem', cur, i) == q
  {
    var mem' := Grafted(mem, cur, i, q);
    forall j | 0 <= j < ENTRIES
      ensures KidTree(mem', cur, level, j)
      ensures KidReach(mem', cur, level, j) == KidReach(mem, cur, level, j) + (if j == i then {q} else {})
      ensures q !in KidReach(mem, cur, level, j)
    {
      GraftKid(mem, cur, level, i, q, j);
    }
    forall j, k | 0 <= j < k < ENTRIES ensures KidReach(mem', cur, level, j) !! KidReach(mem', cur, level, k) {
      assert KidReach(mem, cur, level, j) !! KidReach(mem, cur, level, k);
    }
    KidsTogether(mem, mem', cur, level, i, {q});
  }

  /** Hanging a new table anywhere in the tree keeps it a tree, with one table more. */
  lemma {:induction false} Graft(mem: Memory, page: nat, level: nat, v: nat, k: nat, q: nat)
    requires Tree(mem, page, level) && 0 < k <= level <= 2 && q !in mem
    requires Descend(mem, page, level, v, k).Some?
    ensures Descend(mem, page, level, v, k).value in Reach(mem, page, level)
    ensures Tree(mem, Descend(mem, page, level, v, k).value, k)
    ensures var cur := Descend(mem, page, level, v, k).value;
            !HasKid(mem, cur, Index(k, v)) ==>
              var mem' := Grafted(mem, cur, Index(k, v), q);
              && Tree(mem', page, level) && Reach(mem', page, level) == Reach(mem, page, level) + {q}
              && Descend(mem', page, level, v, k - 1) == Some(q)
    decreases level
  {
    DescendReach(mem, page, level, v, k);
    var cur := Descend(mem, page, level, v, k).value;
    if !HasKid(mem, cur, Index(k, v)) {
      var mem' := Grafted(mem, cur, Index(k, v), q);
      if level == k {
        GraftHere(mem, cur, level, Index(k, v), q);
      } else {
        var j := Index(level, v);
        assert KidTree(mem, page, level, j);
        DescendReach(mem, Kid(mem, page, j), level - 1, v, k);
        Graft(mem, Kid(mem, page, j), level - 1, v, k, q);
        assert q !in Reach(mem, page, level) by {
          if q in Reach(mem, page, level) { ReachMapped(mem, page, level, q); }
        }
        ReplaceKid(mem, mem', page, level, j, {q});
      }
    }
  }

  lemma TranslateKid(mem: Memory, page: nat, level: nat, w: nat)
    requires 0 < level <= 2
    ensures Translate(mem, page, level, w)
            == if HasKid(mem, page, Index(level, w))
               then Translate(mem, Kid(mem, page, Index(level, w)), level - 1, w)
               else 0
  {
  }

  lemma TranslateNew(mem: Memory, q: nat, level: nat, w: nat)
    requires level <= 2 && q in mem && mem[q] == Zeroed()
    ensures Translate(mem, q, level, w) == 0
  {
    if level > 0 {
      assert !HasKid(mem, q, Index(level, w));
    }
  }

  lemma TranslateFrame(mem: Memory, mem': Memory, page: nat, level: nat, w: nat)
    requires Tree(mem, page, level) && level <= 2
    requires SameOn(mem, mem', Reach(mem, page, level))
    ensures Translate(mem', page, level, w) == Translate(mem, page, level, w)
  {
    FrameDescend(mem, mem', page, level, w, 0);
    DescendReach(mem, page, level, w, 0);
  }

  lemma GraftTranslateHere(mem: Memory, cur: nat, level: nat, i: nat, q: nat, w: nat)
    requires Tree(mem, cur, level) && 0 < level <= 2 && i < ENTRIES && !HasKid(mem, cur, i) && q !in mem
    ensures Translate(Grafted(mem, cur, i, q), cur, level, w) == Translate(mem, cur, level, w)
  {
    var mem', j := Grafted(mem, cur, i, q), Index(level, w);
    TranslateKid(mem, cur, level, w);
    TranslateKid(mem', cur, level, w);
    if j == i {
      TranslateNew(mem', q, level - 1, w);
    } else if HasKid(mem, cur, j) {
      GraftBeside(mem, cur, level, i, q, j);
      TranslateFrame(mem, mem', Kid(mem, cur, j), level - 1, w);
    }
  }

  /** A graft below entry i is not seen below entry j. */
  lemma GraftElsewhere(mem: Memory, page: nat, level: nat, cur: nat, c: nat, q: nat, i: nat, j: nat)
    requires Tree(mem, page, level) && 0 < level <= 2 && i < ENTRIES && j < ENTRIES && i != j && q !in mem
    requires cur in KidReach(mem, page, level, i) && cur in mem && c < |mem[cur]| && HasKid(mem, page, j)
    ensures Tree(mem, Kid(mem, page, j), level - 1)
    ensures SameOn(mem, Grafted(mem, cur, c, q), KidReach(mem, page, level, j))
  {
    assert KidTree(mem, page, level, j);
    assert KidReach(mem, page, level, i) !! KidReach(mem, page, level, j);
    forall p | p in KidReach(mem, page, level, j) ensures p in mem && p != cur {
      ReachMapped(mem, Kid(mem, page, j), level - 1, p);
    }
  }

  /** walk's allocations change no translation. */
  lemma {:induction false} GraftTranslate(mem: Memory, page: nat, level: nat, v: nat, k: nat, q: nat, w: nat)
    requires Tree(mem, page, level) && 0 < k <= level <= 2 && q !in mem
    requires Descend(mem, page, level, v, k).Some? && Tree(mem, Descend(mem, page, level, v, k).value, k)
    requires !HasKid(mem, Descend(mem, page, level, v, k).value, Index(k, v))
    ensures var mem' := Grafted(mem, Descend(mem, page, level, v, k).value, Index(k, v), q);
            Translate(mem', page, level, w) == Translate(mem, page, level, w)
    decreases level
  {
    var cur := Descend(mem, page, level, v, k).value;
    var mem' := Grafted(mem, cur, Index(k, v), q);
    if level == k {
      GraftTranslateHere(mem, cur, level, Index(k, v), q, w);
    } else {
      var i, j := Index(level, v), Index(level, w);
      TranslateKid(mem, page, level, w);
      TranslateKid(mem', page, level, w);
      assert KidTree(mem, page, level, i);
      DescendReach(mem, Kid(mem, page, i), level - 1, v, k);
      assert mem'[page] == mem[page];
      if j == i {
        GraftTranslate(mem, Kid(mem, page, j), level - 1, v, k, q, w);
      } else if HasKid(mem, page, j) {
        GraftElsewhere(mem, page, level, cur, Index(k, v), q, i, j);
        TranslateFrame(mem, mem', Kid(mem, page, j), level - 1, w);
      }
    }
  }

  /** One more step down. */
  lemma {:induction false} DescendStep(mem: Memory, page: nat, level: nat, v: nat, k: nat)
    requires 0 < k <= level <= 2 && Descend(mem, page, level, v, k).Some?
    ensures var p := Descend(mem, page, level, v, k).value;
            Descend(mem, page, level, v, k - 1)
            == if HasKid(mem, p, Index(k, v)) then Some(Kid(mem, p, Index(k, v))) else None
    decreases level
  {
    if k < level {
      DescendStep(mem, Kid(mem, page, Index(level, v)), level - 1, v, k);
    }
  }

  lemma {:induction false} DescendStops(mem: Memory, page: nat, level: nat, v: nat, k: nat)
    requires k <= level <= 2 && Descend(mem, page, level, v, k).None?
    ensures Descend(mem, page, level, v, 0).None?
    decreases level
  {
    if HasKid(mem, page, Index(level, v)) {
      DescendStops(mem, Kid(mem, page, Index(level, v)), level - 1, v, k);
    }
  }

  /** Memory after the entry of virtual page v has been set. */
  ghost function WithEntry(mem: Memory, root: nat, v: nat, pte: nat): Memory
    requires Tree(mem, root, 2) && Descend(mem, root, 2, v, 0).Some?
  {
    DescendReach(mem, root, 2, v, 0);
    var p := Descend(mem, root, 2, v, 0).value;
    var row: seq<nat> := mem[p][Index(0, v) := pte];
    mem[p := row]
  }

  /** Setting one page's entry changes that page's translation and no other. */
  lemma SetEntry(mem: Memory, root: nat, v: nat, pte: nat)
    requires Tree(mem, root, 2) && Descend(mem, root, 2, v, 0).Some? && v < MAXVPN
    ensures var mem' := WithEntry(mem, root, v, pte);
            && Tree(mem', root, 2) && Reach(mem', root, 2) == Reach(mem, root, 2)
            && forall w :: 0 <= w < MAXVPN ==>
              Translate(mem', root, 2, w) == if w == v then pte else Translate(mem, root, 2, w)
  {
    DescendReach(mem, root, 2, v, 0);
    var p := Descend(mem, root, 2, v, 0).value;
    var row := mem[p][Index(0, v) := pte];
    var mem' := WithEntry(mem, root, v, pte);
    SetLeaf(mem, root, 2, v, row);
    forall w | 0 <= w < MAXVPN
      ensures Translate(mem', root, 2, w) == if w == v then pte else Translate(mem, root, 2, w)
    {
      SetLeafDescend(mem, root, 2, v, row, w);
      DescendReach(mem, root, 2, w, 0);
      if w != v && Descend(mem, root, 2, w, 0) == Some(p) && Index(0, w) == Index(0, v) {
        SlotsDistinct(mem, root, 2, v, w);
      }
    }
  }
}
