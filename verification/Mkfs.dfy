/** mkfs.c: the image it builds is a sound file system that holds the given files. */
module Mkfs {
  import opened Params
  import opened FsDisk
  import opened FsState
  import opened FsSlots
  import opened FsContent
  import opened FsGrow
  import opened FsWrite

  const FSSIZE: nat := 2000
  const NINODES: nat := 200
  const NLOG: nat := LOGSIZE
  const NINODEBLOCKS: nat := NINODES / IPB + 1
  const NBITMAP: nat := FSSIZE / BPB + 1
  const NMETA: nat := 2 + NLOG + NINODEBLOCKS + NBITMAP
  const ROOTINO: nat := 1

  const GEOMETRY: Geometry := Geometry(FSSIZE, NINODES, 2 + NLOG, 2 + NLOG + NINODEBLOCKS, NMETA)

  /** The free-map block with the first u bits set. */
  function BitsBelow(u: nat): (r: Block)
    requires u <= BPB
    ensures forall j :: 0 <= j < BPB ==> (MapBit(r, j) <==> j < u)
  {
    if u == 0 then
      ZeroBits();
      Zeros()
    else WithBit(BitsBelow(u - 1), u - 1)
  }

  lemma ZeroBits()
    ensures forall j :: 0 <= j < BPB ==> !MapBit(Zeros(), j)
  {
    forall j | 0 <= j < BPB ensures !MapBit(Zeros(), j) {
      ZeroBit(j % 8);
    }
  }

  lemma {:induction false} ZeroBit(k: nat)
    ensures !Bit(0, k)
  {
    if k > 0 {
      ZeroBit(k - 1);
    }
  }

  /** The image as it will be when blocks below u are marked in use. */
  function Drawn(fs: Fs, u: nat): (r: Fs)
    requires Shaped(fs) && fs.g == GEOMETRY && u <= FSSIZE
    ensures Shaped(r)
  {
    fs.(blocks := fs.blocks[GEOMETRY.bmapstart := BitsBelow(u)])
  }

  predicate Unwritten(fs: Fs, u: nat) {
    forall b :: u <= b < |fs.blocks| ==> fs.blocks[b] == Zeros()
  }

  /** Part way through: blocks from u on are untouched, and with those below u marked the
      ownership of blocks is a partition. */
  ghost predicate Building(fs: Fs, u: nat, owner: map<nat, Slot>) {
    && Shaped(fs) && fs.g == GEOMETRY && NMETA <= u <= FSSIZE
    && Partition(Drawn(fs, u), owner, {}) && Unwritten(fs, u)
  }

  lemma FirstMapBlock(b: nat)
    requires b < FSSIZE
    ensures MapBlock(GEOMETRY, b) == GEOMETRY.bmapstart && b % BPB == b
  {
  }

  lemma DrawnUsed(fs: Fs, u: nat, b: nat)
    requires Shaped(fs) && fs.g == GEOMETRY && u <= FSSIZE && b < FSSIZE
    ensures Used(Drawn(fs, u), b) <==> b < u
  {
    FirstMapBlock(b);
  }

  lemma ReplaceTwice(bs: seq<Block>, m: nat, u: nat, x: Block, y: Block)
    requires m < |bs| && u < |bs| && m != u
    ensures bs[m := x][m := y][u := bs[u]] == bs[m := y]
  {
  }

  /** Taking the next block marks it and, as it was never written, leaves it zeroed. */
  lemma DrawNext(fs: Fs, u: nat)
    requires Shaped(fs) && fs.g == GEOMETRY && NMETA <= u < FSSIZE && fs.blocks[u] == Zeros()
    ensures !Used(Drawn(fs, u), u) && Drawn(fs, u + 1) == Zeroed(Drawn(fs, u), u)
  {
    DrawnUsed(fs, u, u);
    FirstMapBlock(u);
    ReplaceTwice(fs.blocks, GEOMETRY.bmapstart, u, BitsBelow(u), BitsBelow(u + 1));
  }

  lemma DrawnRewrite(fs: Fs, u: nat, x: nat, data: Block)
    requires Shaped(fs) && fs.g == GEOMETRY && u <= FSSIZE && x < FSSIZE && x != GEOMETRY.bmapstart
    ensures var v := Drawn(fs, u);
            v.blocks[x] == fs.blocks[x]
            && Drawn(fs.(blocks := fs.blocks[x := data]), u) == v.(blocks := v.blocks[x := data])
  {
    assert fs.blocks[x := data][GEOMETRY.bmapstart := BitsBelow(u)]
           == fs.blocks[GEOMETRY.bmapstart := BitsBelow(u)][x := data];
  }

  /** Blocks in slots lie below the next free one, in the data area. */
  lemma OwnedBelow(fs: Fs, u: nat, owner: map<nat, Slot>, b: nat)
    requires Building(fs, u, owner) && b in owner
    ensures NMETA <= b < u
  {
    DrawnUsed(fs, u, b);
    assert Used(Drawn(fs, u), b);
  }

  /** Block u has gone into slot s: nothing else is different, in any file. */
  ghost predicate Taken(fs: Fs, u: nat, owner: map<nat, Slot>, fs': Fs, s: Slot) {
    && Building(fs, u, owner) && Building(fs', u + 1, owner[u := s])
    && Extends(Drawn(fs, u), Drawn(fs', u + 1))
    && SlotOk(fs', s) && Value(Drawn(fs', u + 1), s) == u
  }

  lemma TakeFor(fs: Fs, u: nat, owner: map<nat, Slot>, fs': Fs, s: Slot)
    requires Building(fs, u, owner) && u < FSSIZE && Shaped(fs') && fs'.g == GEOMETRY && Unwritten(fs', u + 1)
    requires Filled(Drawn(fs, u), owner, Drawn(fs', u + 1), s, u)
    ensures Taken(fs, u, owner, fs', s)
  {
  }

  lemma TakeAddress(fs: Fs, u: nat, owner: map<nat, Slot>, inum: nat, i: nat)
    requires Building(fs, u, owner) && u < FSSIZE && inum < NINODES && i <= NDIRECT && fs.inodes[inum].addrs[i] == 0
    ensures Taken(fs, u, owner, WithAddr(fs, inum, i, u), if i < NDIRECT then Direct(inum, i) else Indirect(inum))
  {
    var v, fs' := Drawn(fs, u), WithAddr(fs, inum, i, u);
    DrawNext(fs, u);
    if i < NDIRECT {
      FillDirect(v, owner, inum, i, u);
    } else {
      FillIndirect(v, owner, inum, u);
    }
    assert Drawn(fs', u + 1) == WithAddr(Zeroed(v, u), inum, i, u);
    TakeFor(fs, u, owner, fs', if i < NDIRECT then Direct(inum, i) else Indirect(inum));
  }

  lemma IndirectBelow(fs: Fs, u: nat, owner: map<nat, Slot>, inum: nat)
    requires Building(fs, u, owner) && HasIndirect(fs, inum)
    ensures NMETA <= fs.inodes[inum].addrs[NDIRECT] < u
    ensures Drawn(fs, u).blocks[fs.inodes[inum].addrs[NDIRECT]] == fs.blocks[fs.inodes[inum].addrs[NDIRECT]]
  {
    var v := Drawn(fs, u);
    assert SlotOk(v, Indirect(inum)) && OwnsValue(v, owner, Indirect(inum));
    OwnedBelow(fs, u, owner, fs.inodes[inum].addrs[NDIRECT]);
  }

  lemma DrawnEntry(fs: Fs, u: nat, inum: nat, j: nat, b: nat)
    requires Shaped(fs) && fs.g == GEOMETRY && u <= FSSIZE && HasIndirect(fs, inum) && j < NINDIRECT && b < FSSIZE
    requires NMETA <= fs.inodes[inum].addrs[NDIRECT]
    ensures Drawn(WithEntry(fs, inum, j, b), u) == WithEntry(Drawn(fs, u), inum, j, b)
  {
    var ind := fs.inodes[inum].addrs[NDIRECT];
    DrawnRewrite(fs, u, ind, WithWord(fs.blocks[ind], j, b));
  }

  lemma TakeEntry(fs: Fs, u: nat, owner: map<nat, Slot>, inum: nat, j: nat)
    requires Building(fs, u, owner) && u < FSSIZE && HasIndirect(fs, inum) && j < NINDIRECT
    requires Word(fs.blocks[fs.inodes[inum].addrs[NDIRECT]], j) == 0
    ensures Taken(fs, u, owner, WithEntry(fs, inum, j, u), Entry(inum, j))
  {
    IndirectBelow(fs, u, owner, inum);
    DrawNext(fs, u);
    assert Filled(Drawn(fs, u), owner, WithEntry(Drawn(fs, u + 1), inum, j, u), Entry(inum, j), u) by {
      FillEntry(Drawn(fs, u), owner, inum, j, u);
    }
    DrawnEntry(fs, u + 1, inum, j, u);
    TakeFor(fs, u, owner, WithEntry(fs, inum, j, u), Entry(inum, j));
  }

  /** Copying bytes into an allocated block. */
  lemma WriteInto(fs: Fs, u: nat, owner: map<nat, Slot>, inum: nat, a: nat, bytes: seq<Byte>)
    requires Building(fs, u, owner) && Mapped(Drawn(fs, u), inum, a) && a % BSIZE + |bytes| <= BSIZE
    ensures var x := Value(Drawn(fs, u), SlotOf(inum, a / BSIZE));
            && NMETA <= x < u
            && var fs' := fs.(blocks := fs.blocks[x := SpliceBlock(fs.blocks[x], a % BSIZE, bytes)]);
            && Building(fs', u, owner) && Drawn(fs', u) == Written(Drawn(fs, u), inum, a, bytes)
  {
    var v := Drawn(fs, u);
    var x := Value(v, SlotOf(inum, a / BSIZE));
    MappedOwner(v, owner, {}, inum, a);
    OwnedBelow(fs, u, owner, x);
    DrawnRewrite(fs, u, x, SpliceBlock(fs.blocks[x], a % BSIZE, bytes));
    WrittenKeeps(v, owner, inum, a, bytes);
  }

  /** From v, block fbn of a file was reached at x, in v', with nothing else different in any file. */
  ghost predicate GotBlock(v: Fs, v': Fs, inum: nat, fbn: nat, x: nat) {
    && Shaped(v) && Shaped(v') && Extends(v, v') && inum < |v'.inodes| && fbn < MAXFILE
    && x == Value(v', SlotOf(inum, fbn)) && 0 < x < v'.g.size
  }

  /** The blocks a file of n bytes takes: its data blocks, and the indirect block if it needs one. */
  function Blocks(n: nat): nat {
    (n + BSIZE - 1) / BSIZE + if n > NDIRECT * BSIZE then 1 else 0
  }

  function Total(files: seq<seq<Byte>>): nat {
    if files == [] then 0 else Total(files[..|files| - 1]) + Blocks(|files[|files| - 1]|)
  }

  /** Every file is within the largest size and all of them within the data area. */
  predicate Fits(files: seq<seq<Byte>>) {
    (forall k :: 0 <= k < |files| ==> |files[k]| <= MAXBYTES) && NMETA + Total(files) <= FSSIZE
  }

  lemma {:induction false} TotalReplace(f: seq<seq<Byte>>, i: nat, x: seq<Byte>)
    requires i < |f|
    ensures Total(f[i := x]) == Total(f) - Blocks(|f[i]|) + Blocks(|x|)
  {
    var n := |f| - 1;
    if i == n {
      assert f[i := x][..n] == f[..n];
    } else {
      assert f[i := x][..n] == f[..n][i := x];
      TotalReplace(f[..n], i, x);
    }
  }

  lemma BlocksMonotone(m: nat, n: nat)
    requires m <= n
    ensures Blocks(m) <= Blocks(n)
  {
  }

  lemma {:induction false} TotalMonotone(f: seq<seq<Byte>>, g: seq<seq<Byte>>)
    requires |f| == |g| && forall k :: 0 <= k < |f| ==> |f[k]| <= |g[k]|
    ensures Total(f) <= Total(g)
  {
    if f != [] {
      var n := |f| - 1;
      TotalMonotone(f[..n], g[..n]);
      BlocksMonotone(|f[n]|, |g[n]|);
    }
  }

  /** A slot that a file of n bytes uses. */
  predicate Under(s: Slot, n: nat) {
    match s
    case Direct(_, i) => i * BSIZE < n
    case Indirect(_) => NDIRECT * BSIZE < n
    case Entry(_, j) => (NDIRECT + j) * BSIZE < n
  }

  /** No file has a block past its last byte, if file inum had `top` bytes. */
  ghost predicate SnugBut(fs: Fs, owner: map<nat, Slot>, inum: nat, top: nat) {
    forall b :: b in owner ==>
      && owner[b].inum < |fs.inodes|
      && Under(owner[b], if owner[b].inum == inum then top else fs.inodes[owner[b].inum].size)
  }

  ghost predicate Snug(fs: Fs, owner: map<nat, Slot>) {
    forall b :: b in owner ==> owner[b].inum < |fs.inodes| && Under(owner[b], fs.inodes[owner[b].inum].size)
  }

  /** Whatever has been added is in the slots ss. */
  ghost predicate Added(ow: map<nat, Slot>, ow': map<nat, Slot>, ss: set<Slot>) {
    forall b :: b in ow' ==> (b in ow && ow'[b] == ow[b]) || ow'[b] in ss
  }

  lemma AddedTrans(ow: map<nat, Slot>, ow1: map<nat, Slot>, ow2: map<nat, Slot>, ss1: set<Slot>, ss2: set<Slot>)
    requires Added(ow, ow1, ss1) && Added(ow1, ow2, ss2)
    ensures Added(ow, ow2, ss1 + ss2)
  {
  }

  /** The slots used to reach block fbn of a file. */
  function SlotsFor(inum: nat, fbn: nat): set<Slot> {
    if fbn < NDIRECT then {Direct(inum, fbn)} else {Indirect(inum)} + {Entry(inum, fbn - NDIRECT)}
  }

  lemma SnugNext(v: Fs, ow: map<nat, Slot>, ow': map<nat, Slot>, inum: nat, a: nat, n: nat)
    requires SnugBut(v, ow, inum, a) && Added(ow, ow', SlotsFor(inum, a / BSIZE)) && n > 0 && inum < |v.inodes|
    ensures SnugBut(v, ow', inum, a + n)
  {
    assert a == BSIZE * (a / BSIZE) + a % BSIZE;
  }

  /** How many blocks reaching block fbn of a file will take. */
  function Needed(v: Fs, inum: nat, fbn: nat): nat
    requires Shaped(v) && inum < |v.inodes| && fbn < MAXFILE
  {
    (if Value(v, SlotOf(inum, fbn)) == 0 then 1 else 0)
    + if fbn >= NDIRECT && v.inodes[inum].addrs[NDIRECT] == 0 then 1 else 0
  }

  lemma BlocksStep(a: nat, n: nat)
    requires n > 0 && a % BSIZE + n <= BSIZE
    ensures Blocks(a + n) == Blocks(a) + (if a % BSIZE == 0 then 1 else 0) + if a == NDIRECT * BSIZE then 1 else 0
  {
    assert a == BSIZE * (a / BSIZE) + a % BSIZE;
  }

  /** A file that has exactly the blocks for a bytes has the block of position a only if its
      last byte is in it, and an indirect block only if it needs one. */
  lemma ExactBlocks(v: Fs, owner: map<nat, Slot>, sizes: Fs, inum: nat, a: nat)
    requires Shaped(v) && Owned(v, owner) && SnugBut(sizes, owner, inum, a) && inum < |v.inodes|
    requires (a > 0 ==> Mapped(v, inum, a - 1)) && a < MAXBYTES
    ensures Value(v, SlotOf(inum, a / BSIZE)) == 0 <==> a % BSIZE == 0
    ensures v.inodes[inum].addrs[NDIRECT] == 0 <==> a <= NDIRECT * BSIZE
  {
    var s := SlotOf(inum, a / BSIZE);
    assert a == BSIZE * (a / BSIZE) + a % BSIZE;
    assert SlotOk(v, s) && OwnsValue(v, owner, s);
    assert a % BSIZE != 0 ==> (a - 1) / BSIZE == a / BSIZE;
    assert SlotOk(v, Indirect(inum)) && OwnsValue(v, owner, Indirect(inum));
    assert a > NDIRECT * BSIZE ==> (a - 1) / BSIZE >= NDIRECT;
  }

  /** It grows by what its size says. */
  lemma GrowthNeeds(v: Fs, owner: map<nat, Slot>, sizes: Fs, inum: nat, a: nat, n: nat)
    requires Shaped(v) && Owned(v, owner) && SnugBut(sizes, owner, inum, a) && inum < |v.inodes|
    requires a > 0 ==> Mapped(v, inum, a - 1)
    requires a < MAXBYTES && n > 0 && a % BSIZE + n <= BSIZE
    ensures Blocks(a + n) == Blocks(a) + Needed(v, inum, a / BSIZE)
  {
    ExactBlocks(v, owner, sizes, inum, a);
    BlocksStep(a, n);
    assert a / BSIZE >= NDIRECT <==> a >= NDIRECT * BSIZE;
  }

  lemma {:induction false} TotalEmpty(f: seq<seq<Byte>>)
    requires forall k :: 0 <= k < |f| ==> f[k] == []
    ensures Total(f) == 0
  {
    if f != [] {
      TotalEmpty(f[..|f| - 1]);
    }
  }

  lemma NeededIndirect(fs: Fs, u: nat, owner: map<nat, Slot>, inum: nat, j: nat)
    requires Building(fs, u, owner) && inum < NINODES && j < NINDIRECT
    ensures var ind := fs.inodes[inum].addrs[NDIRECT];
            ind < FSSIZE && Needed(Drawn(fs, u), inum, NDIRECT + j)
                            == if ind == 0 then 2 else if Word(fs.blocks[ind], j) == 0 then 1 else 0
  {
    if fs.inodes[inum].addrs[NDIRECT] != 0 {
      AddressBelow(fs, u, owner, inum, NDIRECT);
      IndirectBelow(fs, u, owner, inum);
    }
  }

  lemma FitsMore(v: Fs, files: seq<seq<Byte>>, inum: nat, data: seq<Byte>)
    requires Whole(v) && files == Files(v) && inum < |files|
    ensures Fits(files[inum := files[inum] + data])
            <==> |files[inum]| + |data| <= MAXBYTES
                 && NMETA + Total(files) + Blocks(|files[inum]| + |data|) - Blocks(|files[inum]|) <= FSSIZE
  {
    var g := files[inum := files[inum] + data];
    TotalReplace(files, inum, files[inum] + data);
    assert |g[inum]| == |files[inum]| + |data|;
    forall k | 0 <= k < |files| ensures |files[k]| <= MAXBYTES {
      assert NoHoles(v, k);
    }
  }

  /** Between appends: whole files, whose blocks are those their sizes need. */
  ghost predicate Built(fs: Fs, u: nat, owner: map<nat, Slot>, files: seq<seq<Byte>>) {
    && Building(fs, u, owner) && Whole(Drawn(fs, u)) && files == Files(Drawn(fs, u))
    && Snug(fs, owner) && u == NMETA + Total(files)
  }

  lemma AppendStart(fs: Fs, u: nat, owner: map<nat, Slot>, files: seq<seq<Byte>>, inum: nat)
    requires Built(fs, u, owner, files) && inum < NINODES
    ensures fs.inodes[inum].size == |files[inum]|
    ensures Appending(Drawn(fs, u), fs, u, owner, inum, fs.inodes[inum].size, [])
  {
    assert NoHoles(Drawn(fs, u), inum);
    WroteNothing(Drawn(fs, u), inum, fs.inodes[inum].size);
  }

  lemma AppendEnd(v: Fs, ow: map<nat, Slot>, fs: Fs, u: nat, owner: map<nat, Slot>, f: seq<seq<Byte>>, inum: nat,
                  off: nat, data: seq<Byte>, size: nat, g: seq<seq<Byte>>)
    requires Sound(v, ow) && f == Files(v) && inum < |v.inodes| && off == v.inodes[inum].size && size == off + |data|
    requires Appending(v, fs, u, owner, inum, off, data) && g == f[inum := f[inum] + data]
    requires u == NMETA + Total(f) + Blocks(size) - Blocks(off)
    ensures Built(Sized(fs, inum, size), u, owner, g)
  {
    var fs' := Sized(fs, inum, size);
    assert Building(fs', u, owner) && Whole(Drawn(fs', u)) && g == Files(Drawn(fs', u)) by {
      Appended(v, ow, fs, u, owner, inum, data, size);
    }
    assert Snug(fs', owner) by {
      SnugEnd(v, fs, owner, inum, size);
    }
    assert u == NMETA + Total(g) by {
      TotalReplace(f, inum, f[inum] + data);
    }
  }

  lemma SnugEnd(v: Fs, fs: Fs, owner: map<nat, Slot>, inum: nat, top: nat)
    requires SnugBut(v, owner, inum, top) && inum < |fs.inodes| == |v.inodes|
    requires forall k :: 0 <= k < |fs.inodes| ==> fs.inodes[k].size == v.inodes[k].size
    ensures Snug(Sized(fs, inum, top), owner)
  {
  }

  /** Part way through an append at off: d is in, and file inum has exactly the blocks for it. */
  ghost predicate Appending(v: Fs, fs: Fs, u: nat, owner: map<nat, Slot>, inum: nat, off: nat, d: seq<Byte>) {
    && Building(fs, u, owner) && inum < NINODES && off + |d| <= MAXBYTES
    && Wrote(v, Drawn(fs, u), inum, off, d) && SnugBut(v, owner, inum, off + |d|)
    && (off + |d| > 0 ==> Mapped(Drawn(fs, u), inum, off + |d| - 1))
  }

  class Image {
    var blocks: seq<Block>
    var inodes: seq<Inode>
    var freeblock: nat
    ghost var owner: map<nat, Slot>
    ghost var files: seq<seq<Byte>>     // the contents of every file

    function Val(): Fs
      reads this
    {
      Fs(GEOMETRY, blocks, inodes)
    }

    ghost predicate Ready()
      reads this
    {
      Building(Val(), freeblock, owner)
    }

    ghost predicate Valid()
      reads this
    {
      Built(Val(), freeblock, owner, files)
    }

    /** The next block becomes address i of a file. */
    method TakeBlock(inum: nat, i: nat)
      requires Ready() && inum < NINODES && i <= NDIRECT && inodes[inum].addrs[i] == 0 && freeblock < FSSIZE
      modifies this`inodes, this`freeblock, this`owner
      ensures Taken(old(Val()), old(freeblock), old(owner), Val(),
                    if i < NDIRECT then Direct(inum, i) else Indirect(inum))
      ensures freeblock == old(freeblock) + 1 && Ready() && inodes[inum].addrs[i] == old(freeblock)
      ensures owner == old(owner)[old(freeblock) := if i < NDIRECT then Direct(inum, i) else Indirect(inum)]
      ensures i == NDIRECT ==> old(blocks[freeblock]) == Zeros()
    {
      ghost var s := if i < NDIRECT then Direct(inum, i) else Indirect(inum);
      TakeAddress(Val(), freeblock, owner, inum, i);
      var a: seq<nat> := inodes[inum].addrs[i := freeblock];
      inodes := inodes[inum := inodes[inum].(addrs := a)];
      assert Val() == WithAddr(old(Val()), inum, i, old(freeblock));
      owner := owner[freeblock := s];
      freeblock := freeblock + 1;
    }

    /** An address of iappend's inode, given the next block if it has none. Past the end of the
        image there is no block: the read that follows ends mkfs. */
    method Address(inum: nat, i: nat) returns (x: nat, ok: bool)
      requires Ready() && inum < NINODES && i <= NDIRECT
      modifies this`inodes, this`freeblock, this`owner
      ensures ok ==> Ready() && x == inodes[inum].addrs[i] && 0 < x < FSSIZE
      ensures ok ==> Extends(Drawn(old(Val()), old(freeblock)), Drawn(Val(), freeblock))
      ensures ok <==> old(inodes[inum].addrs[i]) != 0 || old(freeblock) < FSSIZE
      ensures ok ==> freeblock == old(freeblock) + if old(inodes[inum].addrs[i]) == 0 then 1 else 0
      ensures ok && old(inodes[inum].addrs[i]) == 0 ==> blocks[x] == Zeros()
      ensures ok && old(inodes[inum].addrs[i]) != 0 ==> x == old(inodes[inum].addrs[i])
      ensures ok ==> Added(old(owner), owner, {if i < NDIRECT then Direct(inum, i) else Indirect(inum)})
    {
      if inodes[inum].addrs[i] == 0 {
        if freeblock == FSSIZE {
          return 0, false;
        }
        TakeBlock(inum, i);
      } else {
        AddressBelow(Val(), freeblock, owner, inum, i);
        ExtendsSelf(Drawn(Val(), freeblock));
      }
      x, ok := inodes[inum].addrs[i], true;
    }

    /** The same for an entry of the indirect block. */
    method TakeForEntry(inum: nat, j: nat)
      requires Ready() && HasIndirect(Val(), inum) && j < NINDIRECT && freeblock < FSSIZE
      requires Word(blocks[inodes[inum].addrs[NDIRECT]], j) == 0
      modifies this`blocks, this`freeblock, this`owner
      ensures Taken(old(Val()), old(freeblock), old(owner), Val(), Entry(inum, j))
      ensures freeblock == old(freeblock) + 1 && Ready()
      ensures Word(blocks[inodes[inum].addrs[NDIRECT]], j) == old(freeblock)
      ensures owner == old(owner)[old(freeblock) := Entry(inum, j)]
    {
      TakeEntry(Val(), freeblock, owner, inum, j);
      var ind := inodes[inum].addrs[NDIRECT];
      WithWordSame(blocks[ind], j, freeblock);
      blocks := blocks[ind := WithWord(blocks[ind], j, freeblock)];
      assert Val() == WithEntry(old(Val()), inum, j, old(freeblock));
      owner := owner[freeblock := Entry(inum, j)];
      freeblock := freeblock + 1;
    }

    /** The block for block number fbn of a file, allocated as needed; mkfs ends if there is none. */
    method Reach(inum: nat, fbn: nat) returns (x: nat, ok: bool)
      requires Ready() && inum < NINODES && fbn < MAXFILE
      modifies this`blocks, this`inodes, this`freeblock, this`owner
      ensures ok ==> Ready() && GotBlock(Drawn(old(Val()), old(freeblock)), Drawn(Val(), freeblock), inum, fbn, x)
      ensures ok ==> Added(old(owner), owner, SlotsFor(inum, fbn))
      ensures ok <==> old(freeblock) + Needed(Drawn(old(Val()), old(freeblock)), inum, fbn) <= FSSIZE
      ensures ok ==> freeblock == old(freeblock) + Needed(Drawn(old(Val()), old(freeblock)), inum, fbn)
    {
      if fbn < NDIRECT {
        x, ok := Address(inum, fbn);
      } else {
        NeededIndirect(Val(), freeblock, owner, inum, fbn - NDIRECT);
        x, ok := ReachEntry(inum, fbn - NDIRECT);
      }
    }

    method ReachEntry(inum: nat, j: nat) returns (x: nat, ok: bool)
      requires Ready() && inum < NINODES && j < NINDIRECT && inodes[inum].addrs[NDIRECT] < FSSIZE
      modifies this`blocks, this`inodes, this`freeblock, this`owner
      ensures ok ==> Ready()
      ensures ok ==> GotBlock(Drawn(old(Val()), old(freeblock)), Drawn(Val(), freeblock), inum, NDIRECT + j, x)
      ensures ok ==> Added(old(owner), owner, SlotsFor(inum, NDIRECT + j))
      ensures var ind, u := old(inodes[inum].addrs[NDIRECT]), old(freeblock);
              var n := if ind == 0 then 2 else if Word(old(blocks)[ind], j) == 0 then 1 else 0;
              (ok <==> u + n <= FSSIZE) && (ok ==> freeblock == u + n)
    {
      ghost var v, ow := Drawn(Val(), freeblock), owner;
      x, ok := Address(inum, NDIRECT);
      if ok {
        assert old(inodes[inum].addrs[NDIRECT]) == 0 ==> Word(blocks[x], j) == 0 by {
          ZeroTable();
        }
        x, ok := Indexed(inum, j, v, ow);
      }
    }

    method Indexed(inum: nat, j: nat, ghost v: Fs, ghost ow: map<nat, Slot>) returns (x: nat, ok: bool)
      requires Ready() && HasIndirect(Val(), inum) && j < NINDIRECT && Shaped(v) && Extends(v, Drawn(Val(), freeblock))
      requires Added(ow, owner, {Indirect(inum)})
      modifies this`blocks, this`freeblock, this`owner
      ensures ok ==> Ready() && GotBlock(v, Drawn(Val(), freeblock), inum, NDIRECT + j, x)
      ensures ok ==> Added(ow, owner, SlotsFor(inum, NDIRECT + j))
      ensures ok <==> old(Word(blocks[inodes[inum].addrs[NDIRECT]], j)) != 0 || old(freeblock) < FSSIZE
      ensures ok ==> freeblock == old(freeblock)
                                  + if old(Word(blocks[inodes[inum].addrs[NDIRECT]], j)) == 0 then 1 else 0
    {
      ghost var v1, ow1 := Drawn(Val(), freeblock), owner;
      x, ok := EntryAddress(inum, j);
      if ok {
        EntryThere(Val(), freeblock, owner, inum, j);
        ExtendsTrans(v, v1, Drawn(Val(), freeblock));
        AddedTrans(ow, ow1, owner, {Indirect(inum)}, {Entry(inum, j)});
      }
    }

    method EntryAddress(inum: nat, j: nat) returns (x: nat, ok: bool)
      requires Ready() && HasIndirect(Val(), inum) && j < NINDIRECT
      modifies this`blocks, this`freeblock, this`owner
      ensures ok ==> Ready() && x == Word(blocks[inodes[inum].addrs[NDIRECT]], j) != 0
      ensures ok ==> Extends(Drawn(old(Val()), old(freeblock)), Drawn(Val(), freeblock))
      ensures ok ==> Added(old(owner), owner, {Entry(inum, j)})
      ensures ok <==> old(Word(blocks[inodes[inum].addrs[NDIRECT]], j)) != 0 || old(freeblock) < FSSIZE
      ensures ok ==> freeblock == old(freeblock)
                                  + if old(Word(blocks[inodes[inum].addrs[NDIRECT]], j)) == 0 then 1 else 0
    {
      if Word(blocks[inodes[inum].addrs[NDIRECT]], j) == 0 {
        if freeblock == FSSIZE {
          return 0, false;
        }
        TakeForEntry(inum, j);
      } else {
        ExtendsSelf(Drawn(Val(), freeblock));
      }
      x, ok := Word(blocks[inodes[inum].addrs[NDIRECT]], j), true;
    }

    /** One turn of iappend's loop: the rest of the data or of the block at position a. */
    method AppendBlock(inum: nat, a: nat, bytes: seq<Byte>, ghost v: Fs, ghost off: nat, ghost d: seq<Byte>)
      returns (ok: bool)
      requires Appending(v, Val(), freeblock, owner, inum, off, d) && a == off + |d| < MAXBYTES
      requires a % BSIZE + |bytes| <= BSIZE && bytes != []
      modifies this`blocks, this`inodes, this`freeblock, this`owner
      ensures ok ==> Appending(v, Val(), freeblock, owner, inum, off, d + bytes)
      ensures ok <==> old(freeblock) + Blocks(a + |bytes|) - Blocks(a) <= FSSIZE
      ensures ok ==> freeblock == old(freeblock) + Blocks(a + |bytes|) - Blocks(a)
    {
      var x;
      ghost var v1, ow := Drawn(Val(), freeblock), owner;
      GrowthNeeds(v1, owner, v, inum, a, |bytes|);
      x, ok := Reach(inum, a / BSIZE);
      if ok {
        SnugNext(v, ow, owner, inum, a, |bytes|);
        CopyIn(inum, a, x, bytes, v, v1, off, d);
      }
    }

    method CopyIn(inum: nat, a: nat, x: nat, bytes: seq<Byte>, ghost v: Fs, ghost v1: Fs, ghost off: nat,
                  ghost d: seq<Byte>)
      requires Ready() && inum < NINODES && Wrote(v, v1, inum, off, d) && a == off + |d| < MAXBYTES
      requires GotBlock(v1, Drawn(Val(), freeblock), inum, a / BSIZE, x) && SnugBut(v, owner, inum, a + |bytes|)
      requires a % BSIZE + |bytes| <= BSIZE && bytes != []
      modifies this`blocks
      ensures Appending(v, Val(), freeblock, owner, inum, off, d + bytes)
    {
      ghost var v2 := Drawn(Val(), freeblock);
      WroteExtends(v, v1, v2, inum, off, d);
      WriteInto(Val(), freeblock, owner, inum, a, bytes);
      WroteMore(v, v2, owner, inum, off, d, bytes);
      blocks := blocks[x := SpliceBlock(blocks[x], a % BSIZE, bytes)];
      WithinMax(a, |bytes|);
      assert WroteAt(v, Drawn(Val(), freeblock), inum, off, d + bytes, inum, a + |bytes| - 1);
    }

    method AppendTurn(inum: nat, off: nat, data: seq<Byte>, tot: nat, ghost v: Fs) returns (next: nat, ok: bool)
      requires tot < |data| && Appending(v, Val(), freeblock, owner, inum, off, data[..tot])
      modifies this`blocks, this`inodes, this`freeblock, this`owner
      ensures tot < next <= |data|
      ensures ok ==> Appending(v, Val(), freeblock, owner, inum, off, data[..next])
      ensures ok ==> freeblock == old(freeblock) + Blocks(off + next) - Blocks(off + tot)
      ensures !ok ==> off + |data| > MAXBYTES || old(freeblock) + Blocks(off + |data|) - Blocks(off + tot) > FSSIZE
    {
      var n1 := Chunk(off, |data|, tot);
      next := tot + n1;
      if off + tot >= MAXBYTES {
        return next, false;
      }
      assert data[..tot] + data[tot..next] == data[..next];
      ok := AppendBlock(inum, off + tot, data[tot..next], v, off, data[..tot]);
      BlocksMonotone(off + next, off + |data|);
    }

    /** iappend's loop. */
    method AppendLoop(inum: nat, off: nat, data: seq<Byte>, ghost v: Fs) returns (ok: bool)
      requires Appending(v, Val(), freeblock, owner, inum, off, data[..0])
      modifies this`blocks, this`inodes, this`freeblock, this`owner
      ensures ok ==> Appending(v, Val(), freeblock, owner, inum, off, data)
      ensures ok <==> off + |data| <= MAXBYTES && old(freeblock) + Blocks(off + |data|) - Blocks(off) <= FSSIZE
      ensures ok ==> freeblock == old(freeblock) + Blocks(off + |data|) - Blocks(off)
    {
      var tot := 0;
      ok := true;
      while tot < |data|
        invariant tot <= |data| && ok && Appending(v, Val(), freeblock, owner, inum, off, data[..tot])
        invariant freeblock == old(freeblock) + Blocks(off + tot) - Blocks(off)
      {
        tot, ok := AppendTurn(inum, off, data, tot, v);
        if !ok {
          return;
        }
      }
      assert data[..tot] == data;
    }

    /** iappend: the file grows by exactly the data, and every other file is as it was. mkfs
        ends instead exactly when the files with the data would not fit. */
    method Iappend(inum: nat, data: seq<Byte>) returns (ok: bool)
      requires Valid() && inum < NINODES
      modifies this
      ensures ok ==> Valid() && files == old(files)[inum := old(files)[inum] + data]
      ensures ok <==> Fits(old(files)[inum := old(files)[inum] + data])
    {
      ghost var v, ow, f := Drawn(Val(), freeblock), owner, files;
      ghost var g := f[inum := f[inum] + data];
      AppendStart(Val(), freeblock, owner, files, inum);
      FitsMore(v, files, inum, data);
      assert data[..0] == [];
      var off := inodes[inum].size;
      ok := AppendLoop(inum, off, data, v);
      if ok {
        AppendEnd(v, ow, Val(), freeblock, owner, f, inum, off, data, off + |data|, g);
        SetSize(inum, off + |data|, g);
      }
    }

    method SetSize(inum: nat, size: nat, ghost f: seq<seq<Byte>>)
      requires inum < |inodes| && Built(Sized(Val(), inum, size), freeblock, owner, f)
      modifies this`inodes, this`files
      ensures Valid() && files == f
    {
      ghost var grown := Sized(Val(), inum, size);
      inodes := inodes[inum := inodes[inum].(size := size)];
      files := f;
      assert Val() == grown;
    }

    /** The zeroed image with its superblock. */
    constructor (super: Block)
      ensures Valid() && freeblock == NMETA && files == NoFiles()
    {
      blocks := Blanks()[1 := super];
      inodes := seq(NINODES, i => Inode(0, seq(NDIRECT + 1, j => 0)));
      freeblock, owner := NMETA, map[];
      new;
      Blank(Val());
      files := Files(Drawn(Val(), freeblock));
    }

    /** balloc: write the free map for the blocks below freeblock. */
    method Balloc()
      requires Ready()
      modifies this`blocks
      ensures Val() == Drawn(old(Val()), freeblock) && Partition(Val(), owner, {})
    {
      var buf := Zeros();
      var i := 0;
      while i < freeblock
        invariant i <= freeblock && buf == BitsBelow(i)
      {
        buf := WithBit(buf, i);
        i := i + 1;
      }
      blocks := blocks[GEOMETRY.bmapstart := buf];
    }

    method AppendAll(inum: nat, chunks: seq<seq<Byte>>) returns (ok: bool)
      requires Valid() && inum < NINODES
      modifies this
      ensures ok ==> Valid() && files == old(files)[inum := old(files)[inum] + Flatten(chunks)]
      ensures ok <==> Fits(old(files)[inum := old(files)[inum] + Flatten(chunks)])
    {
      ghost var f := files;
      var i := 0;
      AppendNothing(files, inum);
      while i < |chunks|
        invariant i <= |chunks| && Valid() && files == f[inum := f[inum] + Flatten(chunks[..i])]
      {
        AppendNext(f, inum, chunks, i);
        ok := Iappend(inum, chunks[i]);
        if !ok {
          return;
        }
        i := i + 1;
      }
      assert chunks[..i] == chunks;
      BuiltFits(Val(), freeblock, owner, files);
      ok := true;
    }

    /** One turn of the loop of main: an entry in the root directory, then the file. */
    method AddFile(names: seq<seq<Byte>>, contents: seq<seq<seq<Byte>>>, i: nat) returns (ok: bool)
      requires Valid() && i < |names| == |contents| <= NINODES - 2 && files == Listing(names[..i], contents[..i])
      modifies this
      ensures ok ==> Valid() && files == Listing(names[..i + 1], contents[..i + 1])
      ensures ok <==> Fits(Listing(names[..i + 1], contents[..i + 1]))
    {
      ghost var f := files;
      ListingNext(names, contents, i);
      FitsLess(f[ROOTINO := f[ROOTINO] + Dirent(2 + i, names[i])], Listing(names[..i + 1], contents[..i + 1]));
      ok := Iappend(ROOTINO, Dirent(2 + i, names[i]));
      if ok {
        ok := AppendAll(2 + i, contents[i]);
      }
    }

    /** The loop of main over the files on the command line. */
    method AddFiles(names: seq<seq<Byte>>, contents: seq<seq<seq<Byte>>>) returns (ok: bool)
      requires Valid() && |names| == |contents| <= NINODES - 2 && files == Listing([], [])
      modifies this
      ensures ok ==> Valid() && files == Listing(names, contents)
      ensures ok <==> Fits(Listing(names, contents))
    {
      var i := 0;
      assert names[..0] == [] && contents[..0] == [];
      while i < |names|
        invariant i <= |names| && Valid() && files == Listing(names[..i], contents[..i])
      {
        ListingFits(names, contents, i + 1);
        ok := AddFile(names, contents, i);
        if !ok {
          return;
        }
        i := i + 1;
      }
      assert names[..i] == names && contents[..i] == contents;
      BuiltFits(Val(), freeblock, owner, files);
      ok := true;
    }

    /** The end of main: round the root directory's size up, then write the free map. */
    method Finish(names: seq<seq<Byte>>, contents: seq<seq<seq<Byte>>>)
      requires Valid() && |names| == |contents| <= NINODES - 2 && files == Listing(names, contents)
      modifies this
      ensures Finished(Val(), owner, names, contents)
      ensures Sound(Val(), owner) <==> (|names| + 2) % 64 != 0
    {
      ghost var fs, fs' := Val(), Sized(Val(), ROOTINO, Rounded(|Root(names)|));
      FinishedSound(fs, freeblock, owner, files, names, contents);
      inodes := inodes[ROOTINO := inodes[ROOTINO].(size := Rounded(inodes[ROOTINO].size))];
      assert Val() == fs';
      Balloc();
    }

    /** main after the image has been zeroed. */
    method Populate(names: seq<seq<Byte>>, contents: seq<seq<seq<Byte>>>) returns (ok: bool)
      requires Valid() && files == NoFiles() && |names| == |contents| <= NINODES - 2
      modifies this
      ensures ok <==> Fits(Listing(names, contents))
      ensures ok ==> Finished(Val(), owner, names, contents) && (Sound(Val(), owner) <==> (|names| + 2) % 64 != 0)
    {
      EmptyListing(names, contents);
      ok := AppendAll(ROOTINO, [Dirent(ROOTINO, [46]), Dirent(ROOTINO, [46, 46])]);
      if ok {
        ok := AddFiles(names, contents);
      }
      if ok {
        Finish(names, contents);
      }
    }
  }

  /** No file has any bytes. */
  ghost function NoFiles(): (f: seq<seq<Byte>>)
    ensures |f| == NINODES && forall k :: 0 <= k < NINODES ==> f[k] == []
  {
    seq(NINODES, i => [])
  }

  /** The image mkfs leaves: a partition of its blocks, every file but the root directory with
      the bytes given for it, and the entries of the root directory in place. */
  ghost predicate Finished(fs: Fs, owner: map<nat, Slot>, names: seq<seq<Byte>>, contents: seq<seq<seq<Byte>>>)
    requires |names| == |contents| <= NINODES - 2
  {
    && Partition(fs, owner, {}) && |fs.inodes| == NINODES
    && (forall k :: 0 <= k < NINODES && k != ROOTINO ==>
          NoHoles(fs, k) && Content(fs, k) == Listing(names, contents)[k])
    && fs.inodes[ROOTINO].size == Rounded(|Root(names)|)
    && (forall p :: 0 <= p < |Root(names)| ==> Holds(fs, ROOTINO, p, Root(names)[p]))
  }

  lemma FinishedSound(fs: Fs, u: nat, owner: map<nat, Slot>, files: seq<seq<Byte>>, names: seq<seq<Byte>>,
                      contents: seq<seq<seq<Byte>>>)
    requires |names| == |contents| <= NINODES - 2 && Built(fs, u, owner, files) && files == Listing(names, contents)
    ensures fs.inodes[ROOTINO].size == |Root(names)|
    ensures var fs' := Sized(fs, ROOTINO, Rounded(|Root(names)|));
            && Building(fs', u, owner) && Finished(Drawn(fs', u), owner, names, contents)
            && (Sound(Drawn(fs', u), owner) <==> (|names| + 2) % 64 != 0)
  {
    var v, fs' := Drawn(fs, u), Sized(fs, ROOTINO, Rounded(|Root(names)|));
    RootContent(v, names, contents);
    SizedBuilding(fs, u, owner, ROOTINO, Rounded(|Root(names)|));
    FinishedFiles(v, owner, files, names, contents);
    RoundedRoot(v, owner, |names|);
  }

  lemma SizedBuilding(fs: Fs, u: nat, owner: map<nat, Slot>, inum: nat, size: nat)
    requires Building(fs, u, owner) && inum < NINODES
    ensures Building(Sized(fs, inum, size), u, owner)
    ensures Drawn(Sized(fs, inum, size), u) == Sized(Drawn(fs, u), inum, size)
  {
    SizedKeeps(Drawn(fs, u), owner, inum, size);
  }

  lemma RoundedRoot(v: Fs, owner: map<nat, Slot>, n: nat)
    requires Sound(v, owner) && Snug(v, owner) && |v.inodes| == NINODES && n <= NINODES
    requires v.inodes[ROOTINO].size == 16 * (n + 2)
    ensures Sound(Sized(v, ROOTINO, Rounded(16 * (n + 2))), owner) <==> (n + 2) % 64 != 0
  {
    RootSize(n);
    RoundedSound(v, owner, ROOTINO);
    LastBlockThere(v, owner, ROOTINO);
  }

  lemma RootContent(v: Fs, names: seq<seq<Byte>>, contents: seq<seq<seq<Byte>>>)
    requires |names| == |contents| <= NINODES - 2 && Whole(v) && |v.inodes| == NINODES
    requires Files(v) == Listing(names, contents)
    ensures NoHoles(v, ROOTINO) && Content(v, ROOTINO) == Root(names) && v.inodes[ROOTINO].size == |Root(names)|
  {
    assert Files(v)[ROOTINO] == Content(v, ROOTINO);
  }

  lemma FinishedFiles(v: Fs, owner: map<nat, Slot>, files: seq<seq<Byte>>, names: seq<seq<Byte>>,
                      contents: seq<seq<seq<Byte>>>)
    requires |names| == |contents| <= NINODES - 2 && Sound(v, owner) && |v.inodes| == NINODES
    requires files == Files(v) == Listing(names, contents)
    ensures Finished(Sized(v, ROOTINO, Rounded(|Root(names)|)), owner, names, contents)
  {
    var size := Rounded(|Root(names)|);
    var v' := Sized(v, ROOTINO, size);
    SizedKeeps(v, owner, ROOTINO, size);
    RootContent(v, names, contents);
    forall k | 0 <= k < NINODES && k != ROOTINO
      ensures NoHoles(v', k) && Content(v', k) == Listing(names, contents)[k]
    {
      OtherFileSame(v, ROOTINO, size, k);
      assert Content(v, k) == files[k];
    }
    forall p | 0 <= p < |Root(names)| ensures Holds(v', ROOTINO, p, Root(names)[p]) {
      assert NoHoles(v, ROOTINO) && Mapped(v, ROOTINO, p);
      SizedByte(v, ROOTINO, size, ROOTINO, p);
    }
  }

  lemma OtherFileSame(fs: Fs, inum: nat, size: nat, k: nat)
    requires Whole(fs) && inum < |fs.inodes| && k < |fs.inodes| && k != inum
    ensures var fs' := Sized(fs, inum, size); Shaped(fs') && NoHoles(fs', k) && Content(fs', k) == Content(fs, k)
  {
    assert NoHoles(fs, k);
    WroteNothing(fs, inum, 0);
    WroteSpares(fs, fs, inum, 0, [], size);
    SparesFile(fs, Sized(fs, inum, size), inum, k);
  }

  lemma FitsLess(f: seq<seq<Byte>>, g: seq<seq<Byte>>)
    requires |f| == |g| && forall k :: 0 <= k < |f| ==> |f[k]| <= |g[k]|
    ensures Fits(g) ==> Fits(f)
  {
    TotalMonotone(f, g);
  }

  lemma BuiltFits(fs: Fs, u: nat, owner: map<nat, Slot>, files: seq<seq<Byte>>)
    requires Built(fs, u, owner, files)
    ensures Fits(files)
  {
    forall k | 0 <= k < |files| ensures |files[k]| <= MAXBYTES {
      assert NoHoles(Drawn(fs, u), k);
    }
  }

  lemma {:induction false} FlattenPrefix(chunks: seq<seq<Byte>>, i: nat)
    requires i <= |chunks|
    ensures |Flatten(chunks[..i])| <= |Flatten(chunks)|
    decreases |chunks| - i
  {
    if i == |chunks| {
      assert chunks[..i] == chunks;
    } else {
      FlattenNext(chunks, i);
      FlattenPrefix(chunks, i + 1);
    }
  }

  lemma ListingFits(names: seq<seq<Byte>>, contents: seq<seq<seq<Byte>>>, i: nat)
    requires i <= |names| == |contents| <= NINODES - 2
    ensures Fits(Listing(names, contents)) ==> Fits(Listing(names[..i], contents[..i]))
  {
    ListingPrefix(names, contents, i);
    FitsLess(Listing(names[..i], contents[..i]), Listing(names, contents));
  }

  /** The next chunk, and that it fits if all of them do. */
  lemma AppendNext(f: seq<seq<Byte>>, inum: nat, chunks: seq<seq<Byte>>, i: nat)
    requires inum < |f| && i < |chunks|
    ensures var now := f[inum := f[inum] + Flatten(chunks[..i])];
            var later := now[inum := now[inum] + chunks[i]];
            && later == f[inum := f[inum] + Flatten(chunks[..i + 1])]
            && (Fits(f[inum := f[inum] + Flatten(chunks)]) ==> Fits(later))
  {
    FlattenNext(chunks, i);
    AppendTwice(f, inum, Flatten(chunks[..i]), chunks[i]);
    FlattenPrefix(chunks, i + 1);
    FitsLess(f[inum := f[inum] + Flatten(chunks[..i + 1])], f[inum := f[inum] + Flatten(chunks)]);
  }

  lemma ListingPrefix(names: seq<seq<Byte>>, contents: seq<seq<seq<Byte>>>, i: nat)
    requires i <= |names| == |contents| <= NINODES - 2
    ensures var f, g := Listing(names[..i], contents[..i]), Listing(names, contents);
            |f| == |g| && forall k :: 0 <= k < |f| ==> |f[k]| <= |g[k]|
  {
    var f, g := Listing(names[..i], contents[..i]), Listing(names, contents);
    forall k | 0 <= k < |f| ensures |f[k]| <= |g[k]| {
      if k == ROOTINO {
        assert f[ROOTINO] == Root(names[..i]) && g[ROOTINO] == Root(names);
      } else if 2 <= k < 2 + i {
        assert f[k] == Flatten(contents[..i][k - 2]) == g[k];
      } else {
        assert f[k] == [];
      }
    }
  }

  lemma EntryThere(fs: Fs, u: nat, owner: map<nat, Slot>, inum: nat, j: nat)
    requires Building(fs, u, owner) && HasIndirect(fs, inum) && j < NINDIRECT
    requires Word(fs.blocks[fs.inodes[inum].addrs[NDIRECT]], j) != 0
    ensures Value(Drawn(fs, u), SlotOf(inum, NDIRECT + j))
            == Word(fs.blocks[fs.inodes[inum].addrs[NDIRECT]], j) < FSSIZE
  {
    var v := Drawn(fs, u);
    IndirectBelow(fs, u, owner, inum);
    assert SlotOk(v, Entry(inum, j)) && OwnsValue(v, owner, Entry(inum, j));
  }

  lemma AddressBelow(fs: Fs, u: nat, owner: map<nat, Slot>, inum: nat, i: nat)
    requires Building(fs, u, owner) && inum < NINODES && i <= NDIRECT && fs.inodes[inum].addrs[i] != 0
    ensures fs.inodes[inum].addrs[i] < FSSIZE
  {
    var v, s := Drawn(fs, u), if i < NDIRECT then Direct(inum, i) else Indirect(inum);
    assert SlotOk(v, s) && OwnsValue(v, owner, s);
  }

  lemma WithinMax(a: nat, n: nat)
    requires a < MAXBYTES && a % BSIZE + n <= BSIZE
    ensures a + n <= MAXBYTES
  {
    assert a == BSIZE * (a / BSIZE) + a % BSIZE;
  }

  lemma Appended(v: Fs, ow: map<nat, Slot>, fs: Fs, u: nat, owner: map<nat, Slot>, inum: nat, data: seq<Byte>,
                 size: nat)
    requires Sound(v, ow) && Building(fs, u, owner) && inum < NINODES == |v.inodes|
    requires size == v.inodes[inum].size + |data| <= MAXBYTES && Wrote(v, Drawn(fs, u), inum, v.inodes[inum].size, data)
    ensures var fs' := Sized(fs, inum, size);
            && Building(fs', u, owner) && Whole(Drawn(fs', u))
            && Files(Drawn(fs', u)) == Files(v)[inum := Files(v)[inum] + data]
  {
    SizedBuilding(fs, u, owner, inum, size);
    AppendedFiles(v, Drawn(fs, u), inum, data, size);
  }

  lemma AppendedFiles(v: Fs, fs: Fs, inum: nat, data: seq<Byte>, size: nat)
    requires Whole(v) && Shaped(fs) && inum < |v.inodes| == |fs.inodes|
    requires size == v.inodes[inum].size + |data| <= MAXBYTES && Wrote(v, fs, inum, v.inodes[inum].size, data)
    ensures Whole(Sized(fs, inum, size))
    ensures Files(Sized(fs, inum, size)) == Files(v)[inum := Files(v)[inum] + data]
  {
    var off, fs' := v.inodes[inum].size, Sized(fs, inum, size);
    assert NoHoles(v, inum);
    WroteSpares(v, fs, inum, off, data, size);
    FileWritten(v, fs, inum, off, data, |data|);
    assert Patched(Content(v, inum), off, data)[..size] == Content(v, inum) + data;
    forall k | 0 <= k < |v.inodes| && k != inum ensures NoHoles(fs', k) && Content(fs', k) == Content(v, k) {
      assert NoHoles(v, k);
      SparesFile(v, fs', inum, k);
    }
  }

  lemma Blank(fs: Fs)
    requires Shaped(fs) && fs.g == GEOMETRY && Unwritten(fs, NMETA)
    requires forall k :: 0 <= k < NINODES ==> fs.inodes[k] == Inode(0, seq(NDIRECT + 1, j => 0))
    ensures Built(fs, NMETA, map[], Files(Drawn(fs, NMETA)))
    ensures Files(Drawn(fs, NMETA)) == NoFiles()
  {
    var v := Drawn(fs, NMETA);
    forall b | 0 <= b < FSSIZE ensures Used(v, b) <==> b < NMETA {
      DrawnUsed(fs, NMETA, b);
    }
    forall s | SlotOk(v, s) ensures OwnsValue(v, map[], s) {
      assert v.inodes[s.inum].addrs[NDIRECT] == 0;
    }
    assert forall k :: 0 <= k < NINODES ==> Files(v)[k] == Content(v, k) == [];
    TotalEmpty(Files(v));
  }

  function Blanks(): (b: seq<Block>)
    ensures |b| == FSSIZE && forall i :: 0 <= i < FSSIZE ==> b[i] == Zeros()
  {
    var zero: nat -> Block := i => Zeros();
    seq(FSSIZE, zero)
  }

  lemma AppendNothing(f: seq<seq<Byte>>, i: nat)
    requires i < |f|
    ensures f[i := f[i] + []] == f
  {
    assert f[i] + [] == f[i];
  }

  lemma AppendTwice(f: seq<seq<Byte>>, i: nat, a: seq<Byte>, b: seq<Byte>)
    requires i < |f|
    ensures var g := f[i := f[i] + a]; g[i := g[i] + b] == f[i := f[i] + (a + b)]
  {
    assert f[i] + a + b == f[i] + (a + b);
  }

  function Flatten(chunks: seq<seq<Byte>>): seq<Byte> {
    if chunks == [] then [] else Flatten(chunks[..|chunks| - 1]) + chunks[|chunks| - 1]
  }

  lemma FlattenNext(chunks: seq<seq<Byte>>, i: nat)
    requires i < |chunks|
    ensures Flatten(chunks[..i + 1]) == Flatten(chunks[..i]) + chunks[i]
  {
    assert chunks[..i + 1][..i] == chunks[..i];
  }

  /** A directory entry: the inode number, then the name cut or padded to 14 bytes. */
  function Dirent(inum: nat, name: seq<Byte>): (e: seq<Byte>)
    ensures |e| == 16
  {
    var lo: Byte, hi: Byte := inum % 256, inum / 256 % 256;
    [lo, hi] + seq(14, i requires 0 <= i < 14 => if i < |name| then name[i] else 0)
  }

  /** The root directory's entries: itself twice, then one for each file. */
  function Root(names: seq<seq<Byte>>): (d: seq<Byte>)
    ensures |d| == 16 * (|names| + 2)
  {
    if names == [] then Dirent(ROOTINO, [46]) + Dirent(ROOTINO, [46, 46])
    else Root(names[..|names| - 1]) + Dirent(1 + |names|, names[|names| - 1])
  }

  /** The files of an image: the root directory, the given files in order, the rest empty. */
  ghost function Listing(names: seq<seq<Byte>>, contents: seq<seq<seq<Byte>>>): (f: seq<seq<Byte>>)
    requires |names| == |contents| <= NINODES - 2
    ensures |f| == NINODES
  {
    seq(NINODES, k requires 0 <= k < NINODES =>
      if k == ROOTINO then Root(names) else if 2 <= k < 2 + |contents| then Flatten(contents[k - 2]) else [])
  }

  lemma RootNext(names: seq<seq<Byte>>, i: nat)
    requires i < |names|
    ensures Root(names[..i + 1]) == Root(names[..i]) + Dirent(2 + i, names[i])
  {
    assert names[..i + 1][..i] == names[..i];
  }

  lemma ListingNext(names: seq<seq<Byte>>, contents: seq<seq<seq<Byte>>>, i: nat)
    requires i < |names| == |contents| <= NINODES - 2
    ensures var f := Listing(names[..i], contents[..i]);
            Listing(names[..i + 1], contents[..i + 1])
            == f[ROOTINO := f[ROOTINO] + Dirent(2 + i, names[i])][2 + i := f[2 + i] + Flatten(contents[i])]
  {
    var f := Listing(names[..i], contents[..i]);
    var g := f[ROOTINO := f[ROOTINO] + Dirent(2 + i, names[i])][2 + i := f[2 + i] + Flatten(contents[i])];
    RootNext(names, i);
    assert f[2 + i] + Flatten(contents[i]) == Flatten(contents[i]);
    forall k | 0 <= k < NINODES ensures Listing(names[..i + 1], contents[..i + 1])[k] == g[k] {
    }
  }

  /** main's rounding of the root directory's size to whole blocks, always up. */
  function Rounded(size: nat): nat {
    (size / BSIZE + 1) * BSIZE
  }

  lemma RoundedPositions(size: nat, p: nat)
    requires size <= p < Rounded(size)
    ensures p / BSIZE == size / BSIZE
  {
    assert size == BSIZE * (size / BSIZE) + size % BSIZE;
  }

  /** The rounding keeps the partition of blocks. It keeps every byte below the size in a block
      exactly when the block after the last full one is allocated. */
  lemma RoundedSound(fs: Fs, owner: map<nat, Slot>, inum: nat)
    requires Sound(fs, owner) && inum < |fs.inodes| && Rounded(fs.inodes[inum].size) <= MAXBYTES
    ensures var fs' := Sized(fs, inum, Rounded(fs.inodes[inum].size));
            Partition(fs', owner, {}) && (Whole(fs') <==> Mapped(fs, inum, fs.inodes[inum].size))
  {
    var size := fs.inodes[inum].size;
    var fs' := Sized(fs, inum, Rounded(size));
    SizedKeeps(fs, owner, inum, Rounded(size));
    assert Mapped(fs', inum, size) <==> Mapped(fs, inum, size);
    assert Whole(fs') ==> NoHoles(fs', inum);
    if Mapped(fs, inum, size) {
      forall k | 0 <= k < |fs.inodes| ensures NoHoles(fs', k) {
        RoundedFile(fs, inum, k);
      }
    }
  }

  lemma RoundedFile(fs: Fs, inum: nat, k: nat)
    requires Whole(fs) && inum < |fs.inodes| && k < |fs.inodes| && Rounded(fs.inodes[inum].size) <= MAXBYTES
    requires Mapped(fs, inum, fs.inodes[inum].size)
    ensures var fs' := Sized(fs, inum, Rounded(fs.inodes[inum].size));
            && Shaped(fs') && NoHoles(fs', k)
            && fs'.inodes[k].size >= fs.inodes[k].size && (k != inum ==> fs'.inodes[k].size == fs.inodes[k].size)
            && Content(fs', k)[..fs.inodes[k].size] == Content(fs, k)
  {
    var size := fs.inodes[inum].size;
    var fs' := Sized(fs, inum, Rounded(size));
    assert NoHoles(fs, k);
    forall p | 0 <= p < fs'.inodes[k].size ensures Mapped(fs', k, p) && ByteAt(fs', k, p) == ByteAt(fs, k, p) {
      if p >= fs.inodes[k].size {
        RoundedPositions(size, p);
      }
      assert Mapped(fs, k, p);
      SizedByte(fs, inum, Rounded(size), k, p);
    }
    assert NoHoles(fs', k);
  }

  /** A file with no block past its last byte has the block its size falls in exactly when the
      size is not a whole number of blocks. */
  lemma LastBlockThere(fs: Fs, owner: map<nat, Slot>, inum: nat)
    requires Sound(fs, owner) && Snug(fs, owner) && inum < |fs.inodes| && fs.inodes[inum].size < MAXBYTES
    ensures Mapped(fs, inum, fs.inodes[inum].size) <==> fs.inodes[inum].size % BSIZE != 0
  {
    var size := fs.inodes[inum].size;
    assert NoHoles(fs, inum);
    var s := SlotOf(inum, size / BSIZE);
    assert SlotOk(fs, s) && OwnsValue(fs, owner, s);
    assert size == BSIZE * (size / BSIZE) + size % BSIZE;
    if size % BSIZE != 0 {
      FirstBlockThere(fs, inum, size);
    }
  }

  /** main: an image with the given files, unless they do not fit and mkfs ends early. Its
      blocks are partitioned among their owners and every given byte is in place; it is a sound
      file system exactly when the root directory does not fill its last block. */
  method MakeImage(super: Block, names: seq<seq<Byte>>, contents: seq<seq<seq<Byte>>>) returns (image: Image, ok: bool)
    requires |names| == |contents| <= NINODES - 2
    ensures ok <==> Fits(Listing(names, contents))
    ensures ok ==> Finished(image.Val(), image.owner, names, contents)
    ensures ok ==> (Sound(image.Val(), image.owner) <==> (|names| + 2) % 64 != 0)
  {
    image := new Image(super);
    ok := image.Populate(names, contents);
  }

  /** Sixty-two empty files fill the root directory's first block: mkfs succeeds, and the image
      claims a second block for the directory that is not there. */
  method SixtyTwoFiles(super: Block) returns (image: Image, ok: bool)
    ensures ok && !Sound(image.Val(), image.owner)
  {
    var names: seq<seq<Byte>> := seq(62, i => []);
    var contents: seq<seq<seq<Byte>>> := seq(62, i => []);
    SmallFits(names, contents);
    image, ok := MakeImage(super, names, contents);
  }

  lemma TotalOne(f: seq<seq<Byte>>, i: nat)
    requires i < |f| && forall k :: 0 <= k < |f| && k != i ==> f[k] == []
    ensures Total(f) == Blocks(|f[i]|)
  {
    TotalEmpty(f[i := []]);
    TotalReplace(f, i, []);
  }

  lemma OnlyRoot(names: seq<seq<Byte>>, contents: seq<seq<seq<Byte>>>, k: nat)
    requires |names| == |contents| <= NINODES - 2 && forall i :: 0 <= i < |contents| ==> contents[i] == []
    requires k < NINODES
    ensures Listing(names, contents)[k] == if k == ROOTINO then Root(names) else []
  {
    if 2 <= k < 2 + |contents| {
      assert contents[k - 2] == [];
    }
  }

  lemma SmallFits(names: seq<seq<Byte>>, contents: seq<seq<seq<Byte>>>)
    requires |names| == |contents| <= NINODES - 2 && forall i :: 0 <= i < |contents| ==> contents[i] == []
    ensures Fits(Listing(names, contents))
  {
    var f := Listing(names, contents);
    assert forall k :: 0 <= k < |f| ==> f[k] == (if k == ROOTINO then Root(names) else []) by {
      forall k | 0 <= k < |f| ensures f[k] == if k == ROOTINO then Root(names) else [] {
        OnlyRoot(names, contents, k);
      }
    }
    FewFit(f, ROOTINO);
  }

  lemma FewFit(f: seq<seq<Byte>>, i: nat)
    requires i < |f| && |f[i]| <= 16 * NINODES && forall k :: 0 <= k < |f| && k != i ==> f[k] == []
    ensures Fits(f)
  {
    TotalOne(f, i);
  }

  lemma EmptyListing(names: seq<seq<Byte>>, contents: seq<seq<seq<Byte>>>)
    requires |names| == |contents| <= NINODES - 2
    ensures var dots: seq<seq<Byte>> := [Dirent(ROOTINO, [46]), Dirent(ROOTINO, [46, 46])];
            NoFiles()[ROOTINO := NoFiles()[ROOTINO] + Flatten(dots)] == Listing([], [])
    ensures Fits(Listing(names, contents)) ==> Fits(Listing([], []))
  {
    DotsFirst();
    assert names[..0] == [] && contents[..0] == [];
    ListingFits(names, contents, 0);
  }

  lemma DotsFirst()
    ensures var dots: seq<seq<Byte>> := [Dirent(ROOTINO, [46]), Dirent(ROOTINO, [46, 46])];
            NoFiles()[ROOTINO := NoFiles()[ROOTINO] + Flatten(dots)] == Listing([], [])
  {
    var dots: seq<seq<Byte>> := [Dirent(ROOTINO, [46]), Dirent(ROOTINO, [46, 46])];
    assert dots[..2] == dots && dots[..0] == [];
    FlattenNext(dots, 0);
    FlattenNext(dots, 1);
    assert Flatten(dots) == Root([]);
    assert NoFiles()[ROOTINO] + Flatten(dots) == Root([]);
  }

  lemma RootSize(n: nat)
    ensures (16 * (n + 2)) % BSIZE != 0 <==> (n + 2) % 64 != 0
  {
    var m := n + 2;
    assert m == 64 * (m / 64) + m % 64;
    assert 16 * m == BSIZE * (m / 64) + 16 * (m % 64);
  }
}
