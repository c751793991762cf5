/** Writing a file: what the bytes are part way through, and how many blocks one write may
    put in the log. */
module FsWrite {
  import opened Collections
  import opened Params
  import opened FsDisk
  import opened FsState
  import opened FsSlots
  import opened FsContent
  import opened FsGrow

  /** Contents c with d written at off. */
  function Patched(c: seq<Byte>, off: nat, d: seq<Byte>): (r: seq<Byte>)
    requires off <= |c|
    ensures |r| == Grown(|c|, off, |d|)
  {
    seq(Grown(|c|, off, |d|), p requires 0 <= p < Grown(|c|, off, |d|) =>
      if off <= p < off + |d| then d[p - off] else c[p])
  }

  /** The size after a write of n bytes at off. */
  function Grown(size: nat, off: nat, n: nat): nat {
    if off + n > size then off + n else size
  }

  /** Position p of file k when d has been written at off of file inum. */
  ghost predicate WroteAt(fs0: Fs, fs: Fs, inum: nat, off: nat, d: seq<Byte>, k: nat, p: nat) {
    if k == inum && off <= p < off + |d| then Holds(fs, k, p, d[p - off]) else Kept(fs0, fs, k, p)
  }

  /** d has been written at off of file inum; every other byte of every file is as it was. */
  ghost predicate Wrote(fs0: Fs, fs: Fs, inum: nat, off: nat, d: seq<Byte>) {
    && fs.g == fs0.g && |fs.inodes| == |fs0.inodes|
    && (forall k :: 0 <= k < |fs.inodes| ==> fs.inodes[k].size == fs0.inodes[k].size)
    && (forall k: nat, p: nat :: WroteAt(fs0, fs, inum, off, d, k, p))
  }

  lemma WroteNothing(fs: Fs, inum: nat, off: nat)
    ensures Wrote(fs, fs, inum, off, [])
  {
  }

  lemma WroteExtends(fs0: Fs, fs: Fs, fs': Fs, inum: nat, off: nat, d: seq<Byte>)
    requires Wrote(fs0, fs, inum, off, d) && Extends(fs, fs')
    ensures Wrote(fs0, fs', inum, off, d)
  {
    forall k: nat, p: nat ensures WroteAt(fs0, fs', inum, off, d, k, p) {
      assert WroteAt(fs0, fs, inum, off, d, k, p) && Kept(fs, fs', k, p);
    }
  }

  /** The next piece of the data goes into the block at the end of what has been written. */
  lemma WroteMore(fs0: Fs, fs: Fs, owner: map<nat, Slot>, inum: nat, off: nat, d: seq<Byte>, e: seq<Byte>)
    requires Wrote(fs0, fs, inum, off, d) && Partition(fs, owner, {})
    requires Mapped(fs, inum, off + |d|) && (off + |d|) % BSIZE + |e| <= BSIZE
    ensures Wrote(fs0, Written(fs, inum, off + |d|, e), inum, off, d + e)
  {
    var fs', a := Written(fs, inum, off + |d|, e), off + |d|;
    forall k: nat, p: nat ensures WroteAt(fs0, fs', inum, off, d + e, k, p) {
      assert WroteAt(fs0, fs, inum, off, d, k, p);
      if Mapped(fs, k, p) {
        WrittenByte(fs, owner, inum, a, e, k, p);
      }
      if k == inum && a <= p < a + |e| {
        SameBlockMapped(fs, inum, a, |e|, p);
        WrittenByte(fs, owner, inum, a, e, k, p);
      }
    }
  }

  lemma SameBlockMapped(fs: Fs, inum: nat, a: nat, n: nat, p: nat)
    requires Mapped(fs, inum, a) && a % BSIZE + n <= BSIZE && a <= p < a + n
    ensures Mapped(fs, inum, p)
  {
    assert a == BSIZE * (a / BSIZE) + a % BSIZE;
    assert p / BSIZE == a / BSIZE;
  }

  /** fs with a new size for one file. */
  function Sized(fs: Fs, inum: nat, size: nat): Fs
    requires inum < |fs.inodes|
  {
    fs.(inodes := fs.inodes[inum := fs.inodes[inum].(size := size)])
  }

  lemma SizedKeeps(fs: Fs, owner: map<nat, Slot>, inum: nat, size: nat)
    requires Partition(fs, owner, {}) && inum < |fs.inodes|
    ensures Partition(Sized(fs, inum, size), owner, {})
  {
    var fs' := Sized(fs, inum, size);
    forall s | SlotOk(fs', s) ensures OwnsValue(fs', owner, s) {
      assert SlotOk(fs, s) && OwnsValue(fs, owner, s) && Value(fs', s) == Value(fs, s);
    }
    forall b | b in owner ensures SlotOk(fs', owner[b]) && Value(fs', owner[b]) == b {
      assert SlotOk(fs, owner[b]);
    }
    forall b | 0 <= b < fs.g.size ensures Used(fs', b) <==> b < fs.g.datastart || b in owner {
      assert Used(fs, b) == Used(fs', b);
    }
  }

  lemma SizedByte(fs: Fs, inum: nat, size: nat, k: nat, p: nat)
    requires inum < |fs.inodes| && Mapped(fs, k, p)
    ensures Holds(Sized(fs, inum, size), k, p, ByteAt(fs, k, p))
  {
    var fs' := Sized(fs, inum, size);
    assert Value(fs', SlotOf(k, p / BSIZE)) == Value(fs, SlotOf(k, p / BSIZE));
  }

  /** The contents after n of the bytes d were reported written at off: c with d over it, cut
      at the size n bytes make. */
  ghost predicate Outcome(c: seq<Byte>, c': seq<Byte>, off: nat, d: seq<Byte>, n: nat) {
    off <= |c| && n <= |d| && c' == Patched(c, off, d)[..Grown(|c|, off, n)]
  }

  lemma WroteSpares(fs0: Fs, fs: Fs, inum: nat, off: nat, d: seq<Byte>, size: nat)
    requires Wrote(fs0, fs, inum, off, d) && inum < |fs0.inodes|
    ensures Spares(fs0, Sized(fs, inum, size), inum)
  {
    forall k: nat, p: nat | k != inum ensures Kept(fs0, Sized(fs, inum, size), k, p) {
      assert WroteAt(fs0, fs, inum, off, d, k, p);
      if Mapped(fs, k, p) {
        SizedByte(fs, inum, size, k, p);
      }
    }
  }

  lemma FileByte(fs0: Fs, fs: Fs, inum: nat, off: nat, d: seq<Byte>, size: nat, p: nat)
    requires Shaped(fs0) && Shaped(fs) && inum < |fs0.inodes| == |fs.inodes| && NoHoles(fs0, inum)
    requires off <= fs0.inodes[inum].size && WroteAt(fs0, fs, inum, off, d, inum, p)
    requires p < fs0.inodes[inum].size || p < off + |d|
    ensures Holds(Sized(fs, inum, size), inum, p, Patched(Content(fs0, inum), off, d)[p])
  {
    assert p < fs0.inodes[inum].size ==> Mapped(fs0, inum, p);
    SizedByte(fs, inum, size, inum, p);
  }

  /** A finished write: with n of the bytes in d reported, the size covers the reported bytes. */
  lemma FileWritten(fs0: Fs, fs: Fs, inum: nat, off: nat, d: seq<Byte>, n: nat)
    requires Shaped(fs0) && Shaped(fs) && inum < |fs0.inodes| && NoHoles(fs0, inum) && Wrote(fs0, fs, inum, off, d)
    requires off <= fs0.inodes[inum].size && n <= |d| && off + n <= MAXBYTES
    ensures var size := Grown(fs0.inodes[inum].size, off, n);
            && Shaped(Sized(fs, inum, size)) && NoHoles(Sized(fs, inum, size), inum)
            && Content(Sized(fs, inum, size), inum) == Patched(Content(fs0, inum), off, d)[..size]
  {
    var size := Grown(fs0.inodes[inum].size, off, n);
    var fs', c := Sized(fs, inum, size), Patched(Content(fs0, inum), off, d);
    forall p | 0 <= p < size ensures Mapped(fs', inum, p) && ByteAt(fs', inum, p) == c[p] {
      assert WroteAt(fs0, fs, inum, off, d, inum, p);
      FileByte(fs0, fs, inum, off, d, size, p);
    }
    assert NoHoles(fs', inum);
    assert Content(fs', inum) == c[..size];
  }

  /** A block number as a set: 0 is none. */
  function Some(b: nat): set<nat> {
    if b == 0 then {} else {b}
  }

  /** The blocks that differ. */
  function Dirty(a: seq<Block>, b: seq<Block>): set<nat> {
    set i: nat | i < |a| && i < |b| && a[i] != b[i]
  }

  lemma DirtySelf(a: seq<Block>)
    ensures Dirty(a, a) == {}
  {
  }

  /** What a turn adds to the log and to the changed blocks, put together. */
  lemma TurnSets(log: set<nat>, log': set<nat>, d: set<nat>, d': set<nat>, e: set<nat>, touched: set<nat>,
                 maps: set<nat>, a: set<nat>, b: set<nat>)
    requires log' <= log + touched + maps && d' <= d + e && e <= touched + maps && touched <= a + b
    ensures log' + d' <= (log + d) + a + b + maps
  {
  }

  lemma EntrySets(log0: set<nat>, log: set<nat>, d: set<nat>, a: set<nat>, b: set<nat>, maps: set<nat>,
                  touched: set<nat>)
    requires log <= log0 + a + b + maps && d <= a + b + maps && a + b <= touched
    ensures log <= log0 + touched + maps && d <= touched + maps
  {
  }

  /** The indirect block and then the entry. */
  lemma IndirectSets(log0: set<nat>, log1: set<nat>, log2: set<nat>, d1: set<nat>, d2: set<nat>, d: set<nat>,
                     ind: set<nat>, touched: set<nat>, maps1: set<nat>, maps2: set<nat>)
    requires log0 <= log1 <= log2 && log1 <= log0 + ind + maps1 && log2 <= log1 + touched + maps2 && ind <= touched
    requires d1 <= log1 && d1 <= ind + maps1 && d2 <= log2 && d2 <= touched + maps2 && d <= d1 + d2
    ensures log0 <= log2 <= log0 + touched + (maps1 + maps2)
    ensures d <= log2 && d <= touched + (maps1 + maps2)
  {
  }

  lemma DirtyTrans(a: seq<Block>, b: seq<Block>, c: seq<Block>)
    requires |a| == |b| == |c|
    ensures Dirty(a, c) <= Dirty(a, b) + Dirty(b, c)
  {
  }

  lemma DirtyUpdate(a: seq<Block>, i: nat, x: Block)
    requires i < |a|
    ensures Dirty(a, a[i := x]) <= {i} && (x == a[i] ==> Dirty(a, a[i := x]) == {})
  {
  }

  /** After work on k blocks of a file, `added` of them new, the log has grown by at most
      the data blocks, the indirect block, and a free-map block for each new block. */
  ghost predicate Budget(log0: set<nat>, log: set<nat>, ind0: nat, ind: nat, data: set<nat>, maps: set<nat>, k: nat,
                         added: nat) {
    && log <= log0 + data + Some(ind) + maps
    && |data| <= k && added <= k
    && |maps| <= added + if ind0 == 0 && ind != 0 then 1 else 0
  }

  lemma BudgetStep(log0: set<nat>, log: set<nat>, log': set<nat>, ind0: nat, ind: nat, ind': nat, data: set<nat>,
                   maps: set<nat>, k: nat, added: nat, addr: nat, more: set<nat>, n: nat)
    requires Budget(log0, log, ind0, ind, data, maps, k, added)
    requires ind != 0 ==> ind' == ind
    requires log' <= log + Some(addr) + Some(ind') + more
    requires n <= 1 && |more| <= n + if ind == 0 && ind' != 0 then 1 else 0
    requires ind0 != 0 ==> ind != 0
    ensures Budget(log0, log', ind0, ind', data + Some(addr), maps + more, k + 1, added + n)
  {
    UnionSize(data, Some(addr));
    UnionSize(maps, more);
  }

  lemma BudgetTotal(log0: set<nat>, log: set<nat>, ind0: nat, ind: nat, data: set<nat>, maps: set<nat>, k: nat,
                    added: nat, x: nat)
    requires Budget(log0, log, ind0, ind, data, maps, k, added)
    ensures |log + {x}| <= |log0| + k + added + 3
  {
    UnionSize(log0, data);
    UnionSize(log0 + data, Some(ind));
    UnionSize(log0 + data + Some(ind), maps);
    SubsetSize(log, log0 + data + Some(ind) + maps);
    UnionSize(log, {x});
  }

  /** k blocks have been filled with tot of n bytes from off on: all of them but perhaps the
      first and the last completely. */
  predicate Spans(off: nat, n: nat, tot: nat, k: nat) {
    && tot <= n && (k == 0 ==> tot == 0)
    && (k > 0 ==> (k - 1) * BSIZE < off % BSIZE + tot)
    && (k > 0 && tot < n ==> k * BSIZE == off % BSIZE + tot)
  }

  /** How much of the data goes into the next block. */
  function Chunk(off: nat, n: nat, tot: nat): (m: nat)
    requires tot < n
    ensures 0 < m <= n - tot && (off + tot) % BSIZE + m <= BSIZE
  {
    if n - tot < BSIZE - (off + tot) % BSIZE then n - tot else BSIZE - (off + tot) % BSIZE
  }

  /** How many of the next m bytes are copied in. Byte `fault` of the source cannot be read;
      when that stops a copy, `landed` bytes have reached the buffers. */
  function Copied(tot: nat, m: nat, fault: nat, landed: nat): (c: nat)
    requires landed <= fault
    ensures c <= m && (c < m ==> fault < tot + m)
  {
    if tot + m <= fault then m else if landed > tot then landed - tot else 0
  }

  lemma SpansStep(off: nat, n: nat, tot: nat, k: nat)
    requires Spans(off, n, tot, k) && tot < n
    ensures Spans(off, n, tot + Chunk(off, n, tot), k + 1)
  {
    assert off == BSIZE * (off / BSIZE) + off % BSIZE;
    if k > 0 {
      assert off + tot == BSIZE * (off / BSIZE + k);
      assert (off + tot) % BSIZE == 0;
    }
  }

  /** The largest write filewrite makes in one transaction. */
  const MAXWRITE: nat := (MAXOPBLOCKS - 1 - 1 - 2) / 2 * BSIZE

  /** A write of n bytes at off reaches into block k - 1 of those it covers. */
  predicate Started(off: nat, n: nat, k: nat) {
    k > 0 ==> (k - 1) * BSIZE < off % BSIZE + n
  }

  lemma SpansStarted(off: nat, n: nat, tot: nat, k: nat)
    requires Spans(off, n, tot, k)
    ensures Started(off, n, k) && (tot < n ==> Started(off, n, k + 1))
  {
  }

  /** Such a write covers at most four blocks, and then the first was there already. */
  lemma SmallSpan(off: nat, n: nat, k: nat, added: nat)
    requires Started(off, n, k) && n <= MAXWRITE && added <= k && (k > 0 && off % BSIZE != 0 ==> added < k)
    ensures k + added + 3 <= MAXOPBLOCKS
  {
    if off % BSIZE == 0 {
      assert k <= 3;
    } else {
      assert k <= 4;
    }
  }

  /** What a write has logged so far, block by block. */
  datatype Tally = Tally(data: set<nat>, maps: set<nat>, k: nat, added: nat)

  /** The log and the blocks that have changed are within the budget; a write that starts inside
      a block found that block in place. */
  ghost predicate Account(fs0: Fs, fs: Fs, log0: set<nat>, log: set<nat>, inum: nat, off: nat, t: Tally)
    requires Shaped(fs0) && Shaped(fs) && inum < |fs0.inodes| == |fs.inodes|
  {
    && Budget(log0, log + Dirty(fs0.blocks, fs.blocks), fs0.inodes[inum].addrs[NDIRECT],
              fs.inodes[inum].addrs[NDIRECT], t.data, t.maps, t.k, t.added)
    && (fs0.inodes[inum].addrs[NDIRECT] != 0 ==> fs.inodes[inum].addrs[NDIRECT] != 0)
    && (forall k :: 0 <= k < |fs.inodes| && k != inum ==> fs.inodes[k] == fs0.inodes[k]) && log0 <= log
    && (t.k > 0 && off % BSIZE != 0 ==> t.added < t.k)
  }

  /** The block a write starts inside is allocated. */
  lemma FirstBlockThere(fs: Fs, inum: nat, off: nat)
    requires Shaped(fs) && inum < |fs.inodes| && NoHoles(fs, inum) && off <= fs.inodes[inum].size && off % BSIZE != 0
    ensures off < MAXBYTES && Value(fs, SlotOf(inum, off / BSIZE)) != 0
  {
    assert off == BSIZE * (off / BSIZE) + off % BSIZE;
    var p := off - 1;
    assert p / BSIZE == off / BSIZE;
    assert Mapped(fs, inum, p);
  }

  lemma InBlock(a: nat, i: nat)
    requires a % BSIZE + i < BSIZE
    ensures (a + i) / BSIZE == a / BSIZE && (a + i) % BSIZE == a % BSIZE + i
  {
  }

  /** A file's bytes within one block are that block's bytes. */
  lemma BlockSlice(fs: Fs, inum: nat, a: nat, m: nat)
    requires Shaped(fs) && inum < |fs.inodes| && NoHoles(fs, inum)
    requires 0 < m && a + m <= fs.inodes[inum].size && a % BSIZE + m <= BSIZE
    ensures Mapped(fs, inum, a)
    ensures fs.blocks[Value(fs, SlotOf(inum, a / BSIZE))][a % BSIZE..a % BSIZE + m] == Content(fs, inum)[a..a + m]
  {
    assert Mapped(fs, inum, a);
    var u := fs.blocks[Value(fs, SlotOf(inum, a / BSIZE))][a % BSIZE..a % BSIZE + m];
    var v := Content(fs, inum)[a..a + m];
    forall i | 0 <= i < m ensures u[i] == v[i] {
      InBlock(a, i);
      assert v[i] == ByteAt(fs, inum, a + i);
    }
  }

  /** Two writes one after the other are one write. */
  lemma PatchedTwice(c: seq<Byte>, off: nat, d: seq<Byte>, e: seq<Byte>)
    requires off <= |c|
    ensures off + |d| <= |Patched(c, off, d)|
    ensures Patched(Patched(c, off, d), off + |d|, e) == Patched(c, off, d + e)
  {
  }

  /** The first w bytes of the data are written at off, n of them within the size. A write that
      starts past the end of the file writes nothing. */
  ghost predicate Part(c: seq<Byte>, c': seq<Byte>, off: nat, data: seq<Byte>, w: nat, n: nat) {
    && n <= w <= |data|
    && if off > |c| then c' == c && w == 0 else Outcome(c, c', off, data[..w], n)
  }

  lemma PartStart(c: seq<Byte>, off: nat, data: seq<Byte>)
    ensures Part(c, c, off, data, 0, 0)
  {
    if off <= |c| {
      assert data[..0] == [];
      assert Patched(c, off, [])[..|c|] == c;
    }
  }

  lemma PartMore(c: seq<Byte>, c1: seq<Byte>, c2: seq<Byte>, off: nat, data: seq<Byte>, w: nat, n1: nat, got: nat,
                 n: nat)
    requires Part(c, c1, off, data, w, w) && w + n1 <= |data| && got <= n1
    requires Outcome(c1, c2, off + w, data[w..w + n1][..got], n)
    ensures Part(c, c2, off, data, w + got, w + n)
  {
    var e := data[w..w + n1][..got];
    if off <= |c| {
      PatchedTwice(c, off, data[..w], e);
      assert c1 == Patched(c, off, data[..w]);
      assert data[..w] + e == data[..w + got];
    }
  }

  /** The next n1 bytes, of which a writei reports r and puts `got` in place; none if r is -1. */
  lemma PartNext(c: seq<Byte>, c1: seq<Byte>, c2: seq<Byte>, off: nat, data: seq<Byte>, w: nat, n1: nat, got: nat,
                 r: int)
    requires Part(c, c1, off, data, w, w) && w + n1 <= |data| && r >= -1
    requires r == -1 ==> c2 == c1
    requires r != -1 ==> got <= n1 && Outcome(c1, c2, off + w, data[w..w + n1][..got], r)
    ensures Part(c, c2, off, data, if r == -1 then w else w + got, if r > 0 then w + r else w)
  {
    if r != -1 {
      PartMore(c, c1, c2, off, data, w, n1, got, r);
    }
  }
}
