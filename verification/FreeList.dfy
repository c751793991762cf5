/** The free list of the K&R allocator, as a value: address-ordered blocks of units, the
    static `base` first, with the links and sizes the headers hold. */
module FreeList {
  /** A block of `size` units, of which the first holds the header. */
  datatype Block = Block(addr: nat, size: nat)

  /** Unit u belongs to block b. */
  predicate In(b: Block, u: nat) {
    b.addr <= u < b.addr + b.size
  }

  /** Address order, with a gap after every block: neighbours have been merged. */
  ghost predicate Sorted(fl: seq<Block>) {
    Ordered(fl) && forall i :: 0 < i < |fl| ==> fl[i].size > 0
  }

  ghost predicate Ordered(fl: seq<Block>) {
    forall i, j {:trigger Before(fl[i], fl[j])} :: 0 <= i < j < |fl| ==> Before(fl[i], fl[j])
  }

  predicate Before(a: Block, b: Block) {
    a.addr + a.size < b.addr
  }

  function NextAddr(fl: seq<Block>, i: nat): nat
    requires i < |fl|
  {
    if i + 1 < |fl| then fl[i + 1].addr else fl[0].addr
  }

  ghost predicate LinkAt(ptr: map<nat, nat>, size: map<nat, nat>, fl: seq<Block>, i: nat)
    requires i < |fl|
  {
    && fl[i].addr in ptr && fl[i].addr in size
    && size[fl[i].addr] == fl[i].size && ptr[fl[i].addr] == NextAddr(fl, i)
  }

  /** The headers in memory form exactly this list, closed into a cycle. */
  ghost predicate Linked(ptr: map<nat, nat>, size: map<nat, nat>, fl: seq<Block>) {
    |fl| > 0 && forall i {:trigger LinkAt(ptr, size, fl, i)} :: 0 <= i < |fl| ==> LinkAt(ptr, size, fl, i)
  }

  /** Unit u belongs to a block of the list. */
  ghost predicate Covers(fl: seq<Block>, u: nat) {
    exists i :: 0 <= i < |fl| && In(fl[i], u)
  }

  lemma CoversConcat(a: seq<Block>, b: seq<Block>, u: nat)
    ensures Covers(a + b, u) <==> Covers(a, u) || Covers(b, u)
  {
    if Covers(a, u) {
      var i :| 0 <= i < |a| && In(a[i], u);
      assert In((a + b)[i], u);
    }
    if Covers(b, u) {
      var i :| 0 <= i < |b| && In(b[i], u);
      assert In((a + b)[|a| + i], u);
    }
  }

  /** The list pre, c, post covers what its parts cover. */
  lemma CoversSplice(pre: seq<Block>, c: Block, post: seq<Block>, u: nat)
    ensures Covers(pre + [c] + post, u) <==> Covers(pre, u) || In(c, u) || Covers(post, u)
  {
    CoversConcat(pre + [c], post, u);
    CoversConcat(pre, [c], u);
    assert In(c, u) ==> In([c][0], u);
  }

  predicate JoinsNext(fl: seq<Block>, k: nat, b: Block)
    requires k < |fl|
  {
    k + 1 < |fl| && b.addr + b.size == fl[k + 1].addr
  }

  predicate JoinsPrev(fl: seq<Block>, k: nat, b: Block)
    requires k < |fl|
  {
    fl[k].addr + fl[k].size == b.addr
  }

  /** b, with the block after position k if they touch. */
  function WithNext(fl: seq<Block>, k: nat, b: Block): Block
    requires k < |fl|
  {
    if JoinsNext(fl, k, b) then Block(b.addr, b.size + fl[k + 1].size) else b
  }

  function Rest(fl: seq<Block>, k: nat, b: Block): seq<Block>
    requires k < |fl|
  {
    if JoinsNext(fl, k, b) then fl[k + 2..] else fl[k + 1..]
  }

  /** The list with b inserted after position k and merged with the neighbours it touches. */
  function Inserted(fl: seq<Block>, k: nat, b: Block): seq<Block>
    requires k < |fl|
  {
    var c := WithNext(fl, k, b);
    if JoinsPrev(fl, k, b) then fl[..k] + [Block(fl[k].addr, fl[k].size + c.size)] + Rest(fl, k, b)
    else fl[..k + 1] + [c] + Rest(fl, k, b)
  }

  /** b fits between position k and the next block. */
  ghost predicate Fits(fl: seq<Block>, k: nat, b: Block) {
    && k < |fl| && b.size > 0
    && fl[k].addr + fl[k].size <= b.addr && fl[k].addr < b.addr
    && (k + 1 < |fl| ==> b.addr + b.size <= fl[k + 1].addr)
  }

  /** An ordered list, an ordered list after it and a block between them. */
  lemma OrderedSplice(pre: seq<Block>, c: Block, post: seq<Block>)
    requires Ordered(pre) && Ordered(post)
    requires forall i :: 0 <= i < |pre| ==> Before(pre[i], c)
    requires forall j :: 0 <= j < |post| ==> Before(c, post[j])
    ensures Ordered(pre + [c] + post)
  {
    var fl := pre + [c] + post;
    forall i, j | 0 <= i < j < |fl| ensures Before(fl[i], fl[j]) {
      if j < |pre| {
        assert Before(pre[i], pre[j]);
      } else if i > |pre| {
        assert Before(post[i - |pre| - 1], post[j - |pre| - 1]);
      } else {
        assert i < |pre| ==> Before(pre[i], c);
        assert j > |pre| ==> Before(c, post[j - |pre| - 1]);
      }
    }
  }

  lemma PartOrdered(fl: seq<Block>, i: nat, j: nat)
    requires Ordered(fl) && i <= j <= |fl|
    ensures Ordered(fl[i..j])
  {
    var part := fl[i..j];
    forall a, b | 0 <= a < b < |part| ensures Before(part[a], part[b]) {
      assert Before(fl[i + a], fl[i + b]);
    }
  }

  /** b comes after everything up to position k, or touches fl[k]. */
  lemma PrefixBefore(fl: seq<Block>, k: nat, b: Block)
    requires Ordered(fl) && Fits(fl, k, b)
    ensures var pre := fl[..k]; forall i :: 0 <= i < |pre| ==> Before(pre[i], fl[k])
    ensures !JoinsPrev(fl, k, b) ==> var pre := fl[..k + 1]; forall i :: 0 <= i < |pre| ==> Before(pre[i], b)
  {
    forall i | 0 <= i < k ensures Before(fl[i], fl[k]) {
    }
  }

  lemma RestAfter(fl: seq<Block>, k: nat, b: Block)
    requires Sorted(fl) && Fits(fl, k, b)
    ensures var post := Rest(fl, k, b);
            && Ordered(post) && (forall j :: 0 <= j < |post| ==> Before(WithNext(fl, k, b), post[j]))
            && (forall j :: 0 <= j < |post| ==> post[j].size > 0)
  {
    var c, post := WithNext(fl, k, b), Rest(fl, k, b);
    var d := |fl| - |post|;
    assert post == fl[d..|fl|];
    PartOrdered(fl, d, |fl|);
    forall j | 0 <= j < |post| ensures Before(c, post[j]) && post[j].size > 0 {
      assert post[j] == fl[d + j];
      if k + 1 < d + j {
        assert Before(fl[k + 1], fl[d + j]);
      }
    }
  }

  lemma InsertedSorted(fl: seq<Block>, k: nat, b: Block)
    requires Sorted(fl) && Fits(fl, k, b) && fl[0].size == 0
    ensures Sorted(Inserted(fl, k, b))
    ensures Inserted(fl, k, b)[0] == fl[0]
  {
    var c, post := WithNext(fl, k, b), Rest(fl, k, b);
    RestAfter(fl, k, b);
    PrefixBefore(fl, k, b);
    if JoinsPrev(fl, k, b) {
      PartOrdered(fl, 0, k);
      assert fl[0..k] == fl[..k];
      OrderedSplice(fl[..k], Block(fl[k].addr, fl[k].size + c.size), post);
    } else {
      PartOrdered(fl, 0, k + 1);
      assert fl[0..k + 1] == fl[..k + 1];
      OrderedSplice(fl[..k + 1], c, post);
    }
  }

  lemma RestCovers(fl: seq<Block>, k: nat, b: Block, u: nat)
    requires k < |fl|
    ensures In(WithNext(fl, k, b), u) || Covers(Rest(fl, k, b), u) <==> In(b, u) || Covers(fl[k + 1..], u)
  {
    if JoinsNext(fl, k, b) {
      assert fl[k + 1..] == [] + [fl[k + 1]] + fl[k + 2..];
      CoversSplice([], fl[k + 1], fl[k + 2..], u);
    }
  }

  lemma SplitCovers(fl: seq<Block>, k: nat, u: nat)
    requires k < |fl|
    ensures Covers(fl, u) <==> Covers(fl[..k], u) || In(fl[k], u) || Covers(fl[k + 1..], u)
    ensures Covers(fl[..k + 1], u) <==> Covers(fl[..k], u) || In(fl[k], u)
  {
    assert fl == fl[..k] + [fl[k]] + fl[k + 1..];
    CoversSplice(fl[..k], fl[k], fl[k + 1..], u);
    assert fl[..k + 1] == fl[..k] + [fl[k]] + [];
    CoversSplice(fl[..k], fl[k], [], u);
  }

  /** Inserting a block adds exactly its units. */
  lemma InsertedCovers(fl: seq<Block>, k: nat, b: Block, u: nat)
    requires k < |fl|
    ensures Covers(Inserted(fl, k, b), u) <==> Covers(fl, u) || In(b, u)
  {
    var c, post := WithNext(fl, k, b), Rest(fl, k, b);
    RestCovers(fl, k, b, u);
    SplitCovers(fl, k, u);
    if JoinsPrev(fl, k, b) {
      CoversSplice(fl[..k], Block(fl[k].addr, fl[k].size + c.size), post, u);
    } else {
      CoversSplice(fl[..k + 1], c, post, u);
    }
  }

  /** The next-pointers after free() has put bp behind p, first looking forward. */
  function PtrForward(ptr: map<nat, nat>, size: map<nat, nat>, p: nat, bp: nat): map<nat, nat>
    requires p in ptr && ptr[p] in ptr && bp in size
  {
    if bp + size[bp] == ptr[p] then ptr[bp := ptr[ptr[p]]] else ptr[bp := ptr[p]]
  }

  function SizeForward(ptr: map<nat, nat>, size: map<nat, nat>, p: nat, bp: nat): map<nat, nat>
    requires p in ptr && ptr[p] in size && bp in size
  {
    if bp + size[bp] == ptr[p] then size[bp := size[bp] + size[ptr[p]]] else size
  }

  /** Then looking backward. */
  function PtrBack(ptr: map<nat, nat>, size: map<nat, nat>, p: nat, bp: nat): map<nat, nat>
    requires p in size && bp in ptr
  {
    if p + size[p] == bp then ptr[p := ptr[bp]] else ptr[p := bp]
  }

  function SizeBack(size: map<nat, nat>, p: nat, bp: nat): map<nat, nat>
    requires p in size && bp in size
  {
    if p + size[p] == bp then size[p := size[p] + size[bp]] else size
  }

  /** Positions of a sorted list have different addresses. */
  lemma AddrsApart(fl: seq<Block>, i: nat, j: nat)
    requires Ordered(fl) && i < |fl| && j < |fl| && i != j
    ensures fl[i].addr != fl[j].addr
  {
    assert i < j ==> Before(fl[i], fl[j]);
    assert j < i ==> Before(fl[j], fl[i]);
  }

  /** b's address is none of the list's. */
  lemma FitsApart(fl: seq<Block>, k: nat, b: Block, i: nat)
    requires Ordered(fl) && Fits(fl, k, b) && i < |fl|
    ensures fl[i].addr != b.addr
    ensures i <= k ==> fl[i].addr < b.addr
    ensures i > k ==> b.addr + b.size <= fl[i].addr
  {
    assert i < k ==> Before(fl[i], fl[k]);
    assert k + 1 < i ==> Before(fl[k + 1], fl[i]);
  }

  /** free()'s test for a neighbour above asks exactly whether b touches the next block. */
  lemma ForwardTest(ptr: map<nat, nat>, size: map<nat, nat>, fl: seq<Block>, k: nat, b: Block)
    requires Linked(ptr, size, fl) && Ordered(fl) && Fits(fl, k, b)
    ensures LinkAt(ptr, size, fl, k)
    ensures b.addr + b.size == ptr[fl[k].addr] <==> JoinsNext(fl, k, b)
    ensures k + 1 < |fl| ==> LinkAt(ptr, size, fl, k + 1)
    ensures ptr[fl[k].addr] in ptr && ptr[fl[k].addr] in size
    ensures JoinsNext(fl, k, b) ==>
            ptr[ptr[fl[k].addr]] == NextAddr(fl, k + 1) && size[ptr[fl[k].addr]] == fl[k + 1].size
  {
    assert LinkAt(ptr, size, fl, 0);
    if k + 1 == |fl| {
      FitsApart(fl, k, b, 0);
    } else {
      assert LinkAt(ptr, size, fl, k + 1);
    }
  }

  /** Where the block holding b ends up. */
  function Spot(fl: seq<Block>, k: nat, b: Block): nat
    requires k < |fl|
  {
    if JoinsPrev(fl, k, b) then k else k + 1
  }

  /** How far the blocks behind it move. */
  function Shift(fl: seq<Block>, k: nat, b: Block): int
    requires k < |fl|
  {
    1 - (if JoinsPrev(fl, k, b) then 1 else 0) - (if JoinsNext(fl, k, b) then 1 else 0)
  }

  lemma InsertedAt(fl: seq<Block>, k: nat, b: Block, i: nat)
    requires k < |fl| && i < |Inserted(fl, k, b)|
    ensures var fl', m, d := Inserted(fl, k, b), Spot(fl, k, b), Shift(fl, k, b);
            && |fl'| == |fl| + d
            && (i < m ==> fl'[i] == fl[i])
            && (i > m ==> i - d > k && fl'[i] == fl[i - d])
            && (i == m ==> fl'[i] == if JoinsPrev(fl, k, b) then Block(fl[k].addr, fl[k].size + WithNext(fl, k, b).size)
                                     else WithNext(fl, k, b))
  {
  }

  /** Every address the list kept has the pointer it had, unless it is p or bp. */
  lemma InsertedLinkAt(ptr: map<nat, nat>, size: map<nat, nat>, fl: seq<Block>, k: nat, b: Block,
                       ptr': map<nat, nat>, size': map<nat, nat>, i: nat)
    requires Linked(ptr, size, fl) && Ordered(fl) && Fits(fl, k, b) && b.addr in size && size[b.addr] == b.size
    requires ptr'.Keys >= ptr.Keys && size'.Keys >= size.Keys
    requires forall a :: a in ptr && a != fl[k].addr && a != b.addr ==> ptr'[a] == ptr[a]
    requires forall a :: a in size && a != fl[k].addr && a != b.addr ==> size'[a] == size[a]
    requires fl[k].addr in ptr' && fl[k].addr in size'
    requires !JoinsPrev(fl, k, b) ==> ptr'[fl[k].addr] == b.addr && size'[fl[k].addr] == fl[k].size
    requires i < |Inserted(fl, k, b)| && i != Spot(fl, k, b)
    ensures LinkAt(ptr', size', Inserted(fl, k, b), i)
  {
    var fl', m, d := Inserted(fl, k, b), Spot(fl, k, b), Shift(fl, k, b);
    var o := if i < m then i else i - d;
    InsertedAt(fl, k, b, i);
    InsertedAt(fl, k, b, 0);
    if i + 1 < |fl'| {
      InsertedAt(fl, k, b, i + 1);
    }
    assert LinkAt(ptr, size, fl, o) && LinkAt(ptr, size, fl, k);
    FitsApart(fl, k, b, o);
    if o != k {
      AddrsApart(fl, o, k);
    }
  }

  /** free()'s pointer surgery produces exactly the inserted list. */
  lemma InsertedLinked(ptr: map<nat, nat>, size: map<nat, nat>, fl: seq<Block>, k: nat, b: Block)
    requires Linked(ptr, size, fl) && Ordered(fl) && Fits(fl, k, b) && b.addr in size && size[b.addr] == b.size
    ensures fl[k].addr in ptr && fl[k].addr in size && ptr[fl[k].addr] in ptr && ptr[fl[k].addr] in size
    ensures var p := fl[k].addr;
            var ptr1, size1 := PtrForward(ptr, size, p, b.addr), SizeForward(ptr, size, p, b.addr);
            Linked(PtrBack(ptr1, size1, p, b.addr), SizeBack(size1, p, b.addr), Inserted(fl, k, b))
  {
    ForwardTest(ptr, size, fl, k, b);
    var p, m := fl[k].addr, Spot(fl, k, b);
    var ptr1, size1 := PtrForward(ptr, size, p, b.addr), SizeForward(ptr, size, p, b.addr);
    var ptr2, size2 := PtrBack(ptr1, size1, p, b.addr), SizeBack(size1, p, b.addr);
    var fl' := Inserted(fl, k, b);
    InsertedAt(fl, k, b, m);
    forall i | 0 <= i < |fl'| ensures LinkAt(ptr2, size2, fl', i) {
      if i != m {
        InsertedLinkAt(ptr, size, fl, k, b, ptr2, size2, i);
      } else {
        InsertedAt(fl, k, b, 0);
        if m + 1 < |fl'| {
          InsertedAt(fl, k, b, m + 1);
        }
      }
    }
  }

  /** The list without position k. */
  function Removed(fl: seq<Block>, k: nat): seq<Block>
    requires k < |fl|
  {
    fl[..k] + fl[k + 1..]
  }

  lemma RemovedKeeps(ptr: map<nat, nat>, size: map<nat, nat>, fl: seq<Block>, k: nat)
    requires Linked(ptr, size, fl) && Sorted(fl) && 0 < k < |fl|
    ensures fl[k - 1].addr in ptr && fl[k].addr in ptr
    ensures Linked(ptr[fl[k - 1].addr := ptr[fl[k].addr]], size, Removed(fl, k))
    ensures Sorted(Removed(fl, k)) && Removed(fl, k)[0] == fl[0] && Removed(fl, k)[k - 1] == fl[k - 1]
  {
    assert LinkAt(ptr, size, fl, k - 1) && LinkAt(ptr, size, fl, k);
    var fl' := Removed(fl, k);
    var ptr' := ptr[fl[k - 1].addr := ptr[fl[k].addr]];
    forall i | 0 <= i < |fl'| ensures LinkAt(ptr', size, fl', i) && (i > 0 ==> fl'[i].size > 0) {
      var o := if i < k then i else i + 1;
      assert fl'[i] == fl[o] && LinkAt(ptr, size, fl, o);
      if o != k - 1 {
        AddrsApart(fl, o, k - 1);
      }
    }
    forall i, j | 0 <= i < j < |fl'| ensures Before(fl'[i], fl'[j]) {
      assert Before(fl[if i < k then i else i + 1], fl[if j < k then j else j + 1]);
    }
  }

  lemma RemovedCovers(fl: seq<Block>, k: nat, u: nat)
    requires Ordered(fl) && k < |fl|
    ensures Covers(Removed(fl, k), u) <==> Covers(fl, u) && !In(fl[k], u)
  {
    SplitCovers(fl, k, u);
    CoversConcat(fl[..k], fl[k + 1..], u);
    if In(fl[k], u) {
      OnlyCover(fl, k, u);
    }
  }

  /** No other block of an ordered list has the unit. */
  lemma OnlyCover(fl: seq<Block>, k: nat, u: nat)
    requires Ordered(fl) && k < |fl| && In(fl[k], u)
    ensures forall i :: 0 <= i < |fl| && i != k ==> !In(fl[i], u)
  {
    forall i | 0 <= i < |fl| && i != k ensures !In(fl[i], u) {
      assert i < k ==> Before(fl[i], fl[k]);
      assert k < i ==> Before(fl[k], fl[i]);
    }
  }

  /** The list with n units cut off the end of position k. */
  function Shrunk(fl: seq<Block>, k: nat, n: nat): seq<Block>
    requires k < |fl| && n < fl[k].size
  {
    fl[k := Block(fl[k].addr, fl[k].size - n)]
  }

  lemma ShrunkKeeps(ptr: map<nat, nat>, size: map<nat, nat>, fl: seq<Block>, k: nat, n: nat)
    requires Linked(ptr, size, fl) && Sorted(fl) && 0 < k < |fl| && 0 < n < fl[k].size
    ensures var p := fl[k].addr;
            Linked(ptr, size[p := fl[k].size - n][p + fl[k].size - n := n], Shrunk(fl, k, n))
    ensures Sorted(Shrunk(fl, k, n))
  {
    var p, fl' := fl[k].addr, Shrunk(fl, k, n);
    var q := p + fl[k].size - n;
    var size' := size[p := fl[k].size - n][q := n];
    forall i | 0 <= i < |fl'| ensures LinkAt(ptr, size', fl', i) {
      assert LinkAt(ptr, size, fl, i);
      if i != k {
        AddrsApart(fl, i, k);
        assert i < k ==> Before(fl[i], fl[k]);
        assert k < i ==> Before(fl[k], fl[i]);
      }
    }
    forall i, j | 0 <= i < j < |fl'| ensures Before(fl'[i], fl'[j]) {
      assert Before(fl[i], fl[j]);
    }
  }

  lemma ShrunkCovers(fl: seq<Block>, k: nat, n: nat, u: nat)
    requires Ordered(fl) && k < |fl| && n < fl[k].size
    ensures Covers(Shrunk(fl, k, n), u) <==> Covers(fl, u) && !In(Block(fl[k].addr + fl[k].size - n, n), u)
  {
    var fl' := Shrunk(fl, k, n);
    if Covers(fl', u) {
      var i :| 0 <= i < |fl'| && In(fl'[i], u);
      assert In(fl[i], u);
      assert i < k ==> Before(fl[i], fl[k]);
      assert k < i ==> Before(fl[k], fl[i]);
    }
    if Covers(fl, u) && !In(Block(fl[k].addr + fl[k].size - n, n), u) {
      var i :| 0 <= i < |fl| && In(fl[i], u);
      assert In(fl'[i], u);
    }
  }

  /** The last position whose address is below a. */
  ghost function Position(fl: seq<Block>, a: nat): (k: nat)
    requires fl != [] && Ordered(fl) && fl[0].addr < a
    ensures k < |fl| && fl[k].addr < a
    ensures forall i :: k < i < |fl| ==> fl[i].addr >= a
  {
    if fl[|fl| - 1].addr < a then |fl| - 1
    else
      PartOrdered(fl, 0, |fl| - 1);
      assert fl[0..|fl| - 1] == fl[..|fl| - 1];
      Position(fl[..|fl| - 1], a)
  }
}
