/** malloc and free of umalloc.c. Addresses count units of sizeof(Header) bytes. */
module Malloc {
  import opened Options
  import opened FreeList

  const MIN_GROWTH: nat := 4096

  /** Unit u belongs to a block handed out and not yet freed. */
  ghost predicate LiveCovers(live: map<nat, nat>, u: nat) {
    exists a :: a in live && In(Block(a, live[a]), u)
  }

  ghost predicate LiveApart(live: map<nat, nat>, a: nat, b: nat)
    requires a in live && b in live
  {
    a != b ==> a + live[a] <= b || b + live[b] <= a
  }

  /** Handed-out blocks keep their size, lie above base and do not overlap. */
  ghost predicate LiveOk(live: map<nat, nat>, size: map<nat, nat>, base: nat) {
    && (forall a :: a in live ==> a > base && live[a] > 0 && a in size && size[a] == live[a])
    && (forall a, b {:trigger LiveApart(live, a, b)} :: a in live && b in live ==> LiveApart(live, a, b))
  }

  /** Unit u was obtained from sbrk exactly when it is free or handed out, never both. */
  ghost predicate Accounted(fl: seq<Block>, live: map<nat, nat>, arena: set<nat>, u: nat) {
    && (u in arena <==> Covers(fl, u) || LiveCovers(live, u))
    && !(Covers(fl, u) && LiveCovers(live, u))
  }

  ghost predicate Partition(fl: seq<Block>, live: map<nat, nat>, arena: set<nat>) {
    forall u: nat {:trigger Accounted(fl, live, arena, u)} :: Accounted(fl, live, arena, u)
  }

  /** A live block lies wholly between two neighbours of the free list. */
  lemma LiveFits(fl: seq<Block>, live: map<nat, nat>, arena: set<nat>, a: nat)
    requires fl != [] && Sorted(fl) && Partition(fl, live, arena) && a in live && live[a] > 0 && fl[0].addr < a
    requires fl[0].size == 0
    ensures Fits(fl, Position(fl, a), Block(a, live[a]))
  {
    var k, b := Position(fl, a), Block(a, live[a]);
    assert In(b, a) && LiveCovers(live, a) && Accounted(fl, live, arena, a);
    assert !In(fl[k], a);
    if k + 1 < |fl| {
      var u := fl[k + 1].addr;
      assert In(fl[k + 1], u) && Covers(fl, u) && Accounted(fl, live, arena, u);
      assert !In(b, u);
    }
  }

  lemma LiveRemoved(live: map<nat, nat>, size: map<nat, nat>, base: nat, a: nat, u: nat)
    requires LiveOk(live, size, base) && a in live
    ensures LiveCovers(live - {a}, u) <==> LiveCovers(live, u) && !In(Block(a, live[a]), u)
  {
    if LiveCovers(live - {a}, u) {
      var c :| c in live - {a} && In(Block(c, live[c]), u);
      assert LiveApart(live, a, c);
      assert c in live;
    }
    if LiveCovers(live, u) && !In(Block(a, live[a]), u) {
      var c :| c in live && In(Block(c, live[c]), u);
      assert c in live - {a} && In(Block(c, (live - {a})[c]), u);
    }
  }

  lemma LiveAdded(live: map<nat, nat>, a: nat, n: nat, u: nat)
    requires a !in live
    ensures LiveCovers(live[a := n], u) <==> LiveCovers(live, u) || In(Block(a, n), u)
  {
    var live' := live[a := n];
    if LiveCovers(live, u) {
      var c :| c in live && In(Block(c, live[c]), u);
      assert c in live' && In(Block(c, live'[c]), u);
    }
    if In(Block(a, n), u) {
      assert a in live' && In(Block(a, live'[a]), u);
    }
  }

  /** A block none of whose units is handed out is apart from every live block. */
  lemma LiveOkAdded(live: map<nat, nat>, size: map<nat, nat>, base: nat, a: nat, n: nat, size': map<nat, nat>)
    requires LiveOk(live, size, base) && a > base && n > 0
    requires forall u :: In(Block(a, n), u) ==> !LiveCovers(live, u)
    requires a in size' && size'[a] == n && forall c :: c in live ==> c in size' && size'[c] == size[c]
    ensures a !in live && LiveOk(live[a := n], size', base)
  {
    forall e | e in live ensures e != a && (a + n <= e || e + live[e] <= a) {
      var u := if a < e then e else a;
      assert In(Block(e, live[e]), u) ==> LiveCovers(live, u);
    }
    var live' := live[a := n];
    forall c, d | c in live' && d in live' ensures LiveApart(live', c, d) {
      if c != a && d != a {
        assert LiveApart(live, c, d);
      }
    }
  }

  /** Moving a live block to the free list keeps every unit accounted for. */
  lemma FreedPartition(fl: seq<Block>, live: map<nat, nat>, arena: set<nat>, size: map<nat, nat>, base: nat, k: nat,
                       a: nat)
    requires LiveOk(live, size, base) && Partition(fl, live, arena) && a in live && k < |fl|
    ensures Partition(Inserted(fl, k, Block(a, live[a])), live - {a}, arena)
  {
    var b := Block(a, live[a]);
    forall u: nat ensures Accounted(Inserted(fl, k, b), live - {a}, arena, u) {
      assert Accounted(fl, live, arena, u);
      assert In(b, u) ==> LiveCovers(live, u);
      InsertedCovers(fl, k, b, u);
      LiveRemoved(live, size, base, a, u);
    }
  }

  lemma FreedLive(live: map<nat, nat>, size: map<nat, nat>, base: nat, a: nat, size': map<nat, nat>)
    requires LiveOk(live, size, base)
    requires forall c :: c in live && c != a ==> c in size' && size'[c] == size[c]
    ensures LiveOk(live - {a}, size', base)
  {
    var live' := live - {a};
    forall c, d | c in live' && d in live' ensures LiveApart(live', c, d) {
      assert LiveApart(live, c, d);
    }
  }

  /** No free block starts where a live one does. */
  lemma LiveNotListed(fl: seq<Block>, live: map<nat, nat>, arena: set<nat>, c: nat, i: nat)
    requires Partition(fl, live, arena) && c in live && live[c] > 0 && i < |fl|
    requires fl[i].size > 0 || fl[i].addr != c
    ensures fl[i].addr != c
  {
    assert In(Block(c, live[c]), c) && Accounted(fl, live, arena, c);
    assert !In(fl[i], c);
  }

  /** What free()'s pointer surgery makes of a sound heap is a sound heap again. */
  lemma FreedHeap(ptr: map<nat, nat>, size: map<nat, nat>, fl: seq<Block>, live: map<nat, nat>, arena: set<nat>,
                  base: nat, bp: nat)
    requires Linked(ptr, size, fl) && Sorted(fl) && fl[0] == Block(base, 0)
    requires LiveOk(live, size, base) && Partition(fl, live, arena) && bp in live
    ensures var k := Position(fl, bp);
            var p, b := fl[k].addr, Block(bp, live[bp]);
            && p in ptr && p in size && ptr[p] in ptr && ptr[p] in size
            && var ptr1, size1 := PtrForward(ptr, size, p, bp), SizeForward(ptr, size, p, bp);
               var size2, fl' := SizeBack(size1, p, bp), Inserted(fl, k, b);
               && Linked(PtrBack(ptr1, size1, p, bp), size2, fl') && Sorted(fl') && fl'[0] == Block(base, 0)
               && k < |fl'| && fl'[k].addr == p
               && LiveOk(live - {bp}, size2, base) && Partition(fl', live - {bp}, arena)
  {
    LiveFits(fl, live, arena, bp);
    var k, b := Position(fl, bp), Block(bp, live[bp]);
    InsertedLinked(ptr, size, fl, k, b);
    InsertedSorted(fl, k, b);
    FreedPartition(fl, live, arena, size, base, k, bp);
    InsertedAt(fl, k, b, k);
    FreedSizes(ptr, size, fl, live, arena, base, bp);
  }

  lemma FreedSizes(ptr: map<nat, nat>, size: map<nat, nat>, fl: seq<Block>, live: map<nat, nat>, arena: set<nat>,
                   base: nat, bp: nat)
    requires Linked(ptr, size, fl) && Sorted(fl) && fl[0] == Block(base, 0)
    requires LiveOk(live, size, base) && Partition(fl, live, arena) && bp in live
    requires var p := fl[Position(fl, bp)].addr; p in ptr && p in size && ptr[p] in ptr && ptr[p] in size
    ensures var p := fl[Position(fl, bp)].addr;
            LiveOk(live - {bp}, SizeBack(SizeForward(ptr, size, p, bp), p, bp), base)
  {
    var k := Position(fl, bp);
    var size2 := SizeBack(SizeForward(ptr, size, fl[k].addr, bp), fl[k].addr, bp);
    forall c | c in live && c != bp ensures c in size2 && size2[c] == size[c] {
      LiveNotListed(fl, live, arena, c, k);
    }
    FreedLive(live, size, base, bp, size2);
  }

  ghost function UnitSet(a: nat, n: nat): set<nat> {
    set u: nat | a <= u < a + n && In(Block(a, n), u)
  }

  lemma {:induction false} UnitSetSize(a: nat, n: nat)
    ensures |UnitSet(a, n)| == n
  {
    if n > 0 {
      UnitSetSize(a, n - 1);
      assert UnitSet(a, n) == UnitSet(a, n - 1) + {a + n - 1};
    }
  }

  lemma DisjointSize(s: set<nat>, t: set<nat>)
    requires forall u :: u in t ==> u !in s
    ensures |s + t| == |s| + |t|
  {
    assert s !! t;
  }

  ghost function FreeTotal(fl: seq<Block>): nat {
    if fl == [] then 0 else fl[|fl| - 1].size + FreeTotal(fl[..|fl| - 1])
  }

  ghost function LiveTotal(live: map<nat, nat>): nat
    decreases |live|
  {
    if live == map[] then 0 else var a :| a in live; live[a] + LiveTotal(live - {a})
  }

  /** The units of the free list are as many as its sizes say. */
  lemma {:induction false} FreeSize(fl: seq<Block>) returns (s: set<nat>)
    requires Ordered(fl)
    ensures (forall u: nat :: u in s <==> Covers(fl, u)) && |s| == FreeTotal(fl)
  {
    if fl == [] {
      return {};
    }
    var n := |fl| - 1;
    PartOrdered(fl, 0, n);
    assert fl[0..n] == fl[..n];
    var t := FreeSize(fl[..n]);
    var b := fl[n];
    var units := UnitSet(b.addr, b.size);
    UnitSetSize(b.addr, b.size);
    s := t + units;
    forall u: nat ensures u in s <==> Covers(fl, u) {
      SplitCovers(fl, n, u);
    }
    forall u | u in units ensures u !in t {
      OnlyCover(fl, n, u);
      assert !Covers(fl[..n], u);
    }
    DisjointSize(t, units);
  }

  lemma {:induction false} LiveSize(live: map<nat, nat>, size: map<nat, nat>, base: nat) returns (s: set<nat>)
    requires LiveOk(live, size, base)
    ensures (forall u: nat :: u in s <==> LiveCovers(live, u)) && |s| == LiveTotal(live)
    decreases |live|
  {
    if live == map[] {
      return {};
    }
    var a :| a in live && LiveTotal(live) == live[a] + LiveTotal(live - {a});
    FreedLive(live, size, base, a, size);
    assert (live - {a}).Keys == live.Keys - {a};
    var t := LiveSize(live - {a}, size, base);
    var units := UnitSet(a, live[a]);
    UnitSetSize(a, live[a]);
    s := t + units;
    forall u: nat ensures (u in s <==> LiveCovers(live, u)) && !(u in units && u in t) {
      LiveRemoved(live, size, base, a, u);
      assert In(Block(a, live[a]), u) ==> LiveCovers(live, u);
    }
    DisjointSize(t, units);
  }

  /** Units obtained from sbrk are free or handed out: none is lost or counted twice. */
  lemma Conservation(fl: seq<Block>, live: map<nat, nat>, size: map<nat, nat>, base: nat, arena: set<nat>)
    requires Ordered(fl) && LiveOk(live, size, base) && Partition(fl, live, arena)
    ensures |arena| == FreeTotal(fl) + LiveTotal(live)
  {
    var f := FreeSize(fl);
    var l := LiveSize(live, size, base);
    forall u: nat ensures (u in arena <==> u in f + l) && !(u in f && u in l) {
      assert Accounted(fl, live, arena, u);
    }
    assert arena == f + l && f !! l;
  }

  /** Handing out part of the free list keeps every unit accounted for. */
  lemma TakenPartition(fl: seq<Block>, fl': seq<Block>, live: map<nat, nat>, arena: set<nat>, h: nat, n: nat)
    requires Partition(fl, live, arena) && n > 0
    requires forall u :: In(Block(h, n), u) ==> Covers(fl, u)
    requires forall u: nat :: Covers(fl', u) <==> Covers(fl, u) && !In(Block(h, n), u)
    ensures forall u :: In(Block(h, n), u) ==> !LiveCovers(live, u)
    ensures h !in live ==> Partition(fl', live[h := n], arena)
  {
    forall u: nat | In(Block(h, n), u) ensures !LiveCovers(live, u) {
      assert Accounted(fl, live, arena, u);
    }
    if h !in live {
      var live' := live[h := n];
      forall u: nat ensures Accounted(fl', live', arena, u) {
        assert Accounted(fl, live, arena, u);
        LiveAdded(live, h, n, u);
      }
    }
  }

  /** Fresh units from sbrk, handed out as one block. */
  lemma GrownPartition(fl: seq<Block>, live: map<nat, nat>, arena: set<nat>, h: nat, n: nat)
    requires Partition(fl, live, arena) && n > 0 && h !in live
    requires forall u :: u in arena ==> u < h
    ensures Partition(fl, live[h := n], arena + UnitSet(h, n))
    ensures forall u :: In(Block(h, n), u) ==> !LiveCovers(live, u)
  {
    var live', arena' := live[h := n], arena + UnitSet(h, n);
    forall u: nat ensures Accounted(fl, live', arena', u)
      ensures In(Block(h, n), u) ==> !LiveCovers(live, u)
    {
      assert Accounted(fl, live, arena, u);
      LiveAdded(live, h, n, u);
    }
  }

  /** The index x steps along the cycle. */
  function Wrap(x: nat, n: nat): nat {
    if x < n then x else x - n
  }

  /** The s blocks after position f are all too small. */
  ghost predicate TooSmall(fl: seq<Block>, f: nat, s: nat, nunits: nat) {
    forall i :: 0 <= i < |fl| && (f < i <= f + s || i + |fl| <= f + s) ==> fl[i].size < nunits
  }

  lemma InsertedHolds(fl: seq<Block>, k: nat, b: Block) returns (i: nat)
    requires k < |fl|
    ensures i < |Inserted(fl, k, b)| && Inserted(fl, k, b)[i].size >= b.size
  {
    i := Spot(fl, k, b);
    InsertedAt(fl, k, b, i);
  }

  lemma PutBack(live: map<nat, nat>, h: nat, n: nat)
    ensures h !in live ==> live[h := n] - {h} == live
  {
  }

  /** Block i is the first one large enough, going round from the one behind `start`. */
  ghost predicate NextFit(fl: seq<Block>, start: nat, i: nat, nunits: nat) {
    exists f: nat, s: nat ::
      && f < |fl| && s < |fl| && TooSmall(fl, f, s, nunits)
      && fl[f].addr == start && i == Wrap(f + 1 + s, |fl|) && i < |fl| && fl[i].size >= nunits
  }

  /** One more block found too small. */
  lemma ScannedOne(fl: seq<Block>, f: nat, s: nat, nunits: nat)
    requires f < |fl| && s < |fl| && TooSmall(fl, f, s, nunits) && fl[Wrap(f + 1 + s, |fl|)].size < nunits
    ensures TooSmall(fl, f, s + 1, nunits)
    ensures s + 1 == |fl| ==> forall i :: 0 <= i < |fl| ==> fl[i].size < nunits
  {
  }

  /** A header, and as few units of 16 bytes behind it as hold nbytes. */
  function UnitsFor(nbytes: nat): (n: nat)
    ensures n > 0 && nbytes <= 16 * (n - 1) < nbytes + 16
  {
    (nbytes + 16 - 1) / 16 + 1
  }

  function Growth(nu: nat): nat {
    if nu < MIN_GROWTH then MIN_GROWTH else nu
  }

  /** The two conditions of free()'s search loop hold together exactly at the right spot:
      between two neighbours, or behind the last block when the list wraps around. */
  lemma SpotTest(fl: seq<Block>, base: nat, bp: nat, j: nat)
    requires fl != [] && Ordered(fl) && fl[0] == Block(base, 0) && bp > base && j < |fl|
    ensures var p, next := fl[j].addr, NextAddr(fl, j);
            (bp > p && bp < next) || (p >= next && (bp > p || bp < next))
            <==> j == Position(fl, bp) && (j + 1 < |fl| ==> fl[j + 1].addr != bp)
  {
    var k := Position(fl, bp);
    assert j < k ==> Before(fl[j], fl[k]);
    assert j + 1 < k ==> Before(fl[j + 1], fl[k]);
    assert j + 1 < |fl| ==> Before(fl[j], fl[j + 1]);
    assert 0 < j ==> Before(fl[0], fl[j]);
  }

  class Heap {
    const base: nat             // the address of the static header
    var ptr: map<nat, nat>      // s.ptr and s.size of the header at each address
    var size: map<nat, nat>
    var freep: Option<nat>

    ghost var fl: seq<Block>        // the free list, in address order
    ghost var live: map<nat, nat>   // blocks handed out, by the address of their header
    ghost var arena: set<nat>       // all units obtained from sbrk

    ghost predicate Ready()
      reads this
    {
      && Linked(ptr, size, fl) && Sorted(fl) && fl[0] == Block(base, 0)
      && (exists i :: 0 <= i < |fl| && freep == Some(fl[i].addr))
      && LiveOk(live, size, base) && Partition(fl, live, arena)
    }

    ghost predicate Valid()
      reads this
    {
      if freep.None? then live == map[] && arena == {} else Ready()
    }

    constructor (base: nat)
      ensures Valid() && this.base == base && live == map[] && arena == {}
    {
      this.base := base;
      ptr, size, freep := map[], map[], None;
      fl, live, arena := [], map[], {};
    }

    /** The search loop of free(): the list position behind which bp belongs. */
    method FindSpot(bp: nat) returns (p: nat, ghost k: nat)
      requires Ready() && bp > base && forall i :: 0 <= i < |fl| ==> fl[i].addr != bp
      ensures k == Position(fl, bp) && p == fl[k].addr
    {
      ghost var j :| 0 <= j < |fl| && freep == Some(fl[j].addr);
      ghost var n := |fl|;
      k := Position(fl, bp);
      p := freep.value;
      assert LinkAt(ptr, size, fl, j);
      while !(bp > p && bp < ptr[p])
        invariant 0 <= j < n && p == fl[j].addr && LinkAt(ptr, size, fl, j)
        decreases if j <= k then k - j else k - j + n
      {
        SpotTest(fl, base, bp, j);
        if p >= ptr[p] && (bp > p || bp < ptr[p]) {
          break;
        }
        p := ptr[p];
        j := if j + 1 < n then j + 1 else 0;
        assert LinkAt(ptr, size, fl, j);
      }
      SpotTest(fl, base, bp, j);
    }

    /** free(): the block leaves the live ones and its units join the free list, merged
        with the neighbours they touch. */
    method Free(ap: nat)
      requires Ready() && ap > 0 && ap - 1 in live
      modifies this
      ensures Ready()
      ensures live == old(live) - {ap - 1} && arena == old(arena)
      ensures fl == Inserted(old(fl), Position(old(fl), ap - 1), Block(ap - 1, old(live)[ap - 1]))
      ensures freep == Some(old(fl)[Position(old(fl), ap - 1)].addr)
    {
      var bp := ap - 1;
      LiveFits(fl, live, arena, bp);
      forall i | 0 <= i < |fl| ensures fl[i].addr != bp {
        FitsApart(fl, Position(fl, bp), Block(bp, live[bp]), i);
      }
      var p; ghost var k;
      p, k := FindSpot(bp);
      FreedHeap(ptr, size, fl, live, arena, base, bp);
      Merge(p, bp);
      freep := Some(p);
      fl := Inserted(fl, k, Block(bp, live[bp]));
      live := live - {bp};
      assert fl[k].addr == p;
    }

    /** The pointer surgery of free(). */
    method Merge(p: nat, bp: nat)
      requires p in ptr && p in size && ptr[p] in ptr && ptr[p] in size && bp in size
      modifies `ptr, `size
      ensures ptr == PtrBack(PtrForward(old(ptr), old(size), p, bp), SizeForward(old(ptr), old(size), p, bp), p, bp)
      ensures size == SizeBack(SizeForward(old(ptr), old(size), p, bp), p, bp)
    {
      if bp + size[bp] == ptr[p] {
        size, ptr := size[bp := size[bp] + size[ptr[p]]], ptr[bp := ptr[ptr[p]]];
      } else {
        ptr := ptr[bp := ptr[p]];
      }
      if p + size[p] == bp {
        size, ptr := size[p := size[p] + size[bp]], ptr[p := ptr[bp]];
      } else {
        ptr := ptr[p := bp];
      }
    }

    /** What malloc does with a block that is large enough: take all of it, or its end. */
    method Take(prevp: nat, p: nat, nunits: nat, ghost i: nat) returns (h: nat)
      requires Ready() && 0 < i < |fl| && p == fl[i].addr && prevp == fl[i - 1].addr && 0 < nunits <= fl[i].size
      modifies this
      ensures Ready() && arena == old(arena)
      ensures h !in old(live) && live == old(live)[h := nunits] && h > base
      ensures h == old(fl)[i].addr + old(fl)[i].size - nunits
      ensures forall u: nat :: Covers(fl, u) <==> Covers(old(fl), u) && !In(Block(h, nunits), u)
    {
      assert LinkAt(ptr, size, fl, i) && LinkAt(ptr, size, fl, i - 1) && Before(fl[0], fl[i]);
      ghost var fl0, live0, size0 := fl, live, size;
      forall u | In(Block(p + fl[i].size - nunits, nunits), u) ensures Covers(fl, u) {
        assert In(fl[i], u);
      }
      if size[p] == nunits {
        RemovedKeeps(ptr, size, fl, i);
        forall u: nat ensures Covers(Removed(fl, i), u) <==> Covers(fl, u) && !In(fl[i], u) {
          RemovedCovers(fl, i, u);
        }
        ptr := ptr[prevp := ptr[p]];
        fl := Removed(fl, i);
        h := p;
        assert fl[i - 1].addr == prevp;
      } else {
        ShrunkKeeps(ptr, size, fl, i, nunits);
        forall u: nat
          ensures Covers(Shrunk(fl, i, nunits), u)
                  <==> Covers(fl, u) && !In(Block(fl[i].addr + fl[i].size - nunits, nunits), u)
        {
          ShrunkCovers(fl, i, nunits, u);
        }
        size := size[p := size[p] - nunits];
        h := p + size[p];
        size := size[h := nunits];
        fl := Shrunk(fl, i, nunits);
        assert fl[i - 1].addr == prevp;
      }
      freep := Some(prevp);
      TakenPartition(fl0, fl, live0, arena, h, nunits);
      forall c | c in live0 ensures c in size && size[c] == size0[c] && c != p && c != h {
        LiveNotListed(fl0, live0, arena, c, i);
        assert In(Block(c, live0[c]), c) && LiveCovers(live0, c);
      }
      LiveOkAdded(live0, size0, base, h, nunits, size);
      live := live[h := nunits];
    }

    /** morecore(): ask sbrk for at least 4096 units and free them. `grant` is the address
        sbrk returns, if it grants any; it lies above everything granted before. */
    method Morecore(nu: nat, grant: Option<nat>) returns (p: Option<nat>, ghost big: nat)
      requires Ready() && nu > 0
      requires grant.Some? ==> grant.value > base && forall u :: u in arena ==> u < grant.value
      modifies this
      ensures Ready() && live == old(live)
      ensures p.Some? <==> grant.Some?
      ensures p.Some? ==> p == freep && big < |fl| && fl[big].size >= nu
      ensures p.Some? ==> arena == old(arena) + UnitSet(grant.value, Growth(nu))
      ensures p.None? ==> fl == old(fl) && freep == old(freep) && arena == old(arena)
    {
      var n := if nu < MIN_GROWTH then MIN_GROWTH else nu;
      if grant.None? {
        return None, 0;
      }
      var hp := grant.value;
      PutBack(live, hp, n);
      Adopt(hp, n);
      big := InsertedHolds(fl, Position(fl, hp), Block(hp, n));
      Free(hp + 1);
      p := freep;
    }

    /** Give the memory sbrk returned a header, as if malloc had handed it out. */
    method Adopt(hp: nat, n: nat)
      requires Ready() && n > 0 && hp > base && forall u :: u in arena ==> u < hp
      modifies `size, `live, `arena
      ensures Ready() && hp !in old(live)
      ensures live == old(live)[hp := n] && arena == old(arena) + UnitSet(hp, n)
    {
      NotYetListed(hp, n);
      size := size[hp := n];
      live, arena := live[hp := n], arena + UnitSet(hp, n);
    }

    /** A block above everything granted so far can be treated as handed out. */
    lemma NotYetListed(hp: nat, n: nat)
      requires Ready() && n > 0 && hp > base && forall u :: u in arena ==> u < hp
      ensures hp !in live && LiveOk(live[hp := n], size[hp := n], base)
      ensures Partition(fl, live[hp := n], arena + UnitSet(hp, n))
      ensures Linked(ptr, size[hp := n], fl)
    {
      forall c | c in live ensures c != hp {
        assert In(Block(c, live[c]), c) && Accounted(fl, live, arena, c);
      }
      GrownPartition(fl, live, arena, hp, n);
      LiveOkAdded(live, size, base, hp, n, size[hp := n]);
      var size' := size[hp := n];
      forall i | 0 <= i < |fl| ensures LinkAt(ptr, size', fl, i) {
        assert LinkAt(ptr, size, fl, i);
        assert i > 0 ==> In(fl[i], fl[i].addr) && Accounted(fl, live, arena, fl[i].addr);
      }
    }

    /** malloc(): hands out a block of its own, large enough for nbytes and a header, or
        nothing if no free block is large enough and sbrk refuses. */
    method Malloc(nbytes: nat, grant: Option<nat>) returns (r: Option<nat>)
      requires Valid()
      requires grant.Some? ==> grant.value > base && forall u :: u in arena ==> u < grant.value
      modifies this
      ensures Ready()
      ensures r.Some? ==> r.value > 0 && r.value - 1 !in old(live)
      ensures r.Some? ==> live == old(live)[r.value - 1 := UnitsFor(nbytes)]
      ensures r.Some? ==> nbytes <= 16 * (live[r.value - 1] - 1) < nbytes + 16
      ensures r.None? ==> live == old(live) && arena == old(arena) && grant.None?
      ensures r.None? ==> forall i :: 0 <= i < |fl| ==> fl[i].size < UnitsFor(nbytes)
      ensures old(freep).Some? && (exists j :: 0 <= j < |old(fl)| && old(fl)[j].size >= UnitsFor(nbytes)) ==>
                && r.Some? && arena == old(arena)
                && exists i :: 0 <= i < |old(fl)| && NextFit(old(fl), old(freep).value, i, UnitsFor(nbytes))
                               && r.value - 1 == old(fl)[i].addr + old(fl)[i].size - UnitsFor(nbytes)
      ensures arena == old(arena) ||
              (grant.Some? && arena == old(arena) + UnitSet(grant.value, Growth(UnitsFor(nbytes))))
    {
      var nunits := (nbytes + 16 - 1) / 16 + 1;
      if freep.None? {
        ptr, size, freep := map[base := base], map[base := 0], Some(base);
        Initial();
      }
      var found, prevp, p; ghost var i;
      found, prevp, p, i := Search(nunits);
      if !found {
        var more; ghost var big;
        more, big := Morecore(nunits, grant);
        if more.None? {
          return None;
        }
        found, prevp, p, i := Search(nunits);
        assert found;
      }
      var h := Take(prevp, p, nunits, i);
      return Some(h + 1);
    }

    /** malloc's circular search: from the block after freep round to freep itself. It
        finds a large enough block if there is one; after morecore() there always is,
        even if the new units were merged into freep's own block. */
    method Search(nunits: nat) returns (found: bool, prevp: nat, p: nat, ghost i: nat)
      requires Ready() && nunits > 0
      ensures found <==> exists j :: 0 <= j < |fl| && fl[j].size >= nunits
      ensures found ==> 0 < i < |fl| && fl[i].size >= nunits && p == fl[i].addr && prevp == fl[i - 1].addr
      ensures found ==> NextFit(fl, freep.value, i, nunits)
    {
      ghost var f :| 0 <= f < |fl| && freep == Some(fl[f].addr);
      ghost var s, n := 0, |fl|;
      prevp := freep.value;
      assert LinkAt(ptr, size, fl, f);
      p := ptr[prevp];
      while true
        invariant 0 <= s < n && prevp == fl[Wrap(f + s, n)].addr && p == fl[Wrap(f + 1 + s, n)].addr
        invariant TooSmall(fl, f, s, nunits)
        decreases n - s
      {
        i := Wrap(f + 1 + s, n);
        assert LinkAt(ptr, size, fl, i);
        if size[p] >= nunits {
          return true, prevp, p, i;
        }
        ScannedOne(fl, f, s, nunits);
        if Some(p) == freep {
          if i != f {
            AddrsApart(fl, i, f);
          }
          return false, prevp, p, i;
        }
        s := s + 1;
        prevp := p;
        p := ptr[p];
      }
    }

    /** The state malloc sets up on its first call. */
    ghost method Initial()
      requires freep == Some(base) && ptr == map[base := base] && size == map[base := 0]
      requires live == map[] && arena == {}
      modifies `fl
      ensures Ready() && fl == [Block(base, 0)]
    {
      fl := [Block(base, 0)];
      assert LinkAt(ptr, size, fl, 0);
      forall u: nat ensures Accounted(fl, live, arena, u) {
      }
    }
  }
}
