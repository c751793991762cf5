/** fs.c: allocating and freeing blocks, finding a file's blocks, reading and writing files. */
module FileSystem {
  import opened Params
  import opened Collections
  import opened FsDisk
  import opened FsState
  import opened FsSlots
  import opened FsContent
  import opened FsGrow
  import opened FsTrunc
  import opened FsWrite

  /** Blocks bmap allocated between two states, on the way to block bn of a file. */
  function Allocated(fs: Fs, fs': Fs, inum: nat, bn: nat): nat
    requires Shaped(fs) && Shaped(fs') && inum < |fs.inodes| == |fs'.inodes| && bn < MAXFILE
  {
    (if Value(fs, SlotOf(inum, bn)) == 0 && Value(fs', SlotOf(inum, bn)) != 0 then 1 else 0)
    + (if fs.inodes[inum].addrs[NDIRECT] == 0 && fs'.inodes[inum].addrs[NDIRECT] != 0 then 1 else 0)
  }

  /** What reaching block bn of a file may write besides the free map. */
  function Touched(fs: Fs, inum: nat, bn: nat): set<nat>
    requires Shaped(fs) && inum < |fs.inodes| && bn < MAXFILE
  {
    Some(Value(fs, SlotOf(inum, bn))) + (if bn >= NDIRECT then Some(fs.inodes[inum].addrs[NDIRECT]) else {})
  }

  /** The blocks that differ on disk, an inode's block among them if the inode differs. */
  ghost function Changed(a: Fs, b: Fs): set<nat> {
    Dirty(a.blocks, b.blocks)
    + set k: nat | k < |a.inodes| && k < |b.inodes| && a.inodes[k] != b.inodes[k] :: InodeBlock(a.g, k)
  }

  /** Each transaction changes no more blocks than an operation may log. */
  ghost predicate Bounded(states: seq<Fs>) {
    forall j :: 0 <= j < |states| - 1 ==> |Changed(states[j], states[j + 1])| <= MAXOPBLOCKS
  }

  lemma BoundedNext(states: seq<Fs>, s: Fs)
    requires states != [] && Bounded(states) && |Changed(states[|states| - 1], s)| <= MAXOPBLOCKS
    ensures Bounded(states + [s])
  {
  }

  lemma ChangedSelf(a: Fs)
    ensures Changed(a, a) == {}
  {
    DirtySelf(a.blocks);
  }

  /** If only one inode differs. */
  lemma ChangedOne(a: Fs, b: Fs, inum: nat)
    requires forall k :: 0 <= k < |a.inodes| && k < |b.inodes| && k != inum ==> a.inodes[k] == b.inodes[k]
    ensures Changed(a, b) <= Dirty(a.blocks, b.blocks) + {InodeBlock(a.g, inum)}
  {
  }

  /** The block at position p of a file, if there is one. */
  function BlockAt(fs: Fs, inum: nat, p: nat): set<nat>
    requires Shaped(fs) && inum < |fs.inodes|
  {
    if p < MAXBYTES then Some(Value(fs, SlotOf(inum, p / BSIZE))) else {}
  }

  /** The inode and every block that differs have been logged, except the block into which a copy
      failed after some bytes: writei leaves that one modified and not logged. */
  ghost predicate AllLogged(fs0: Fs, fs: Fs, log: set<nat>, inum: nat, off: nat, tot: nat, got: nat) {
    && Shaped(fs) && inum < |fs.inodes| && InodeBlock(fs.g, inum) in log
    && Changed(fs0, fs) <= log + Torn(fs, inum, off, tot, got)
  }

  /** The block a copy failed in, after tot whole bytes and with got in place. */
  function Torn(fs: Fs, inum: nat, off: nat, tot: nat, got: nat): set<nat>
    requires Shaped(fs) && inum < |fs.inodes|
  {
    if got == tot then {} else BlockAt(fs, inum, off + tot)
  }

  /** The size and the inode's block, after the loop of writei has gone from fs0 to fs. */
  lemma GrownLogged(fs0: Fs, fs: Fs, fs': Fs, log: set<nat>, log': set<nat>, inum: nat, off: nat, tot: nat, got: nat,
                    size: nat)
    requires Shaped(fs) && inum < |fs.inodes| == |fs0.inodes| && fs0.g == fs.g && fs' == Sized(fs, inum, size)
    requires Dirty(fs0.blocks, fs.blocks) <= log + Torn(fs, inum, off, tot, got)
    requires forall k :: 0 <= k < |fs.inodes| && k != inum ==> fs.inodes[k] == fs0.inodes[k]
    requires log' == log + {InodeBlock(fs.g, inum)}
    ensures AllLogged(fs0, fs', log', inum, off, tot, got)
    ensures |log' + Changed(fs0, fs')| <= |log + Dirty(fs0.blocks, fs.blocks) + {InodeBlock(fs.g, inum)}|
  {
    SizedBlock(fs, inum, size, off + tot);
    ChangedOne(fs0, fs', inum);
    ChangedSets(log, log', Dirty(fs0.blocks, fs.blocks), Changed(fs0, fs'), InodeBlock(fs.g, inum),
                Torn(fs, inum, off, tot, got));
  }

  /** No free block from lo up to hi. */
  predicate AllUsed(fs: Fs, lo: nat, hi: nat)
    requires Shaped(fs)
  {
    forall b :: lo <= b < hi && b < fs.g.size ==> Used(fs, b)
  }

  predicate Full(fs: Fs)
    requires Shaped(fs)
  {
    AllUsed(fs, 0, fs.g.size)
  }

  /** Position p of a file has no block, and no block is free. */
  predicate NoRoom(fs: Fs, inum: nat, p: nat) {
    && Shaped(fs) && inum < |fs.inodes| && p < MAXBYTES && Full(fs)
    && Value(fs, SlotOf(inum, p / BSIZE)) == 0
  }

  /** Why writei stops after tot of n bytes: there is no room for the next one, or the source
      cannot be read at `fault`, in the same block. */
  predicate Stopped(fs: Fs, inum: nat, off: nat, tot: nat, n: nat, fault: nat) {
    NoRoom(fs, inum, off + tot) || (fault < n && fault < tot + BSIZE)
  }

  /** Why filewrite stops after `at` of n bytes: besides that, because it started behind the end
      of a file of `size` bytes, or because the next transaction would pass the largest file. */
  predicate Halted(fs: Fs, inum: nat, off: nat, at: nat, n: nat, fault: nat, size: nat) {
    || Stopped(fs, inum, off, at, n, fault) || (at == 0 && off > size)
    || (off + n > MAXBYTES && off + at + MAXWRITE > MAXBYTES)
  }

  /** From fs, block bn of a file was reached at addr, in fs'; 0 when the disk was full. */
  ghost predicate Reached(fs: Fs, fs': Fs, inum: nat, bn: nat, addr: nat)
    requires Shaped(fs) && inum < |fs.inodes| && bn < MAXFILE
  {
    && Shaped(fs') && Extends(fs, fs')
    && addr == Value(fs', SlotOf(inum, bn))
    && (Value(fs, SlotOf(inum, bn)) != 0 ==> fs' == fs)
    && (Value(fs, SlotOf(inum, bn)) == 0 && addr != 0 ==> addr < fs'.g.size && fs'.blocks[addr] == Zeros())
    && (addr == 0 ==> Full(fs'))
    && OnlyAddresses(fs, fs', inum)
  }

  /** No inode but this one has changed, and its indirect block was at most added. */
  ghost predicate OnlyAddresses(fs: Fs, fs': Fs, inum: nat)
    requires Shaped(fs) && Shaped(fs') && inum < |fs.inodes| == |fs'.inodes|
  {
    && (fs.inodes[inum].addrs[NDIRECT] != 0 ==> fs'.inodes[inum].addrs[NDIRECT] == fs.inodes[inum].addrs[NDIRECT])
    && forall k :: 0 <= k < |fs.inodes| && k != inum ==> fs'.inodes[k] == fs.inodes[k]
  }

  /** From fs, a file's indirect block was reached at ind, in fs1; 0 when the disk was full. */
  ghost predicate GotIndirect(fs: Fs, fs1: Fs, inum: nat, ind: nat)
    requires Shaped(fs) && inum < |fs.inodes|
  {
    && Shaped(fs1) && Extends(fs, fs1) && OnlyAddresses(fs, fs1, inum)
    && ind == fs1.inodes[inum].addrs[NDIRECT]
    && (fs.inodes[inum].addrs[NDIRECT] != 0 ==> fs1 == fs)
    && (fs.inodes[inum].addrs[NDIRECT] == 0 && ind != 0 ==> ind < fs1.g.size && fs1.blocks[ind] == Zeros())
    && (ind == 0 ==> Full(fs1))
  }

  lemma NoIndirect(fs: Fs, fs1: Fs, inum: nat, bn: nat)
    requires Shaped(fs) && inum < |fs.inodes| && NDIRECT <= bn < MAXFILE && GotIndirect(fs, fs1, inum, 0)
    ensures Reached(fs, fs1, inum, bn, 0)
  {
  }

  /** bmap on the indirect range: first the indirect block, then the entry. */
  lemma ReachedIndirect(fs: Fs, fs1: Fs, fs': Fs, inum: nat, ind: nat, bn: nat, addr: nat)
    requires Shaped(fs) && inum < |fs.inodes| && NDIRECT <= bn < MAXFILE
    requires GotIndirect(fs, fs1, inum, ind) && ind != 0 && Reached(fs1, fs', inum, bn, addr)
    ensures Reached(fs, fs', inum, bn, addr)
    ensures fs.inodes[inum].addrs[NDIRECT] == 0 ==> Value(fs, SlotOf(inum, bn)) == Value(fs1, SlotOf(inum, bn)) == 0
  {
    ExtendsTrans(fs, fs1, fs');
    if fs.inodes[inum].addrs[NDIRECT] == 0 {
      FreshEntry(fs1, inum, bn - NDIRECT);
    }
  }

  /** Only free-map blocks have been logged in between. */
  ghost predicate LogsMap(g: Geometry, was: set<nat>, now: set<nat>) {
    forall c :: c in now ==> c in was || IsMapBlock(g, c)
  }

  /** And every block that has changed in between is among those logged. */
  ghost predicate Logs(g: Geometry, b0: seq<Block>, was: set<nat>, b: seq<Block>, now: set<nat>) {
    |b| == |b0| && was <= now && LogsMap(g, was, now) && Dirty(b0, b) <= now
  }

  lemma LogsNothing(g: Geometry, b: seq<Block>, log: set<nat>)
    ensures Logs(g, b, log, b, log)
  {
    DirtySelf(b);
  }

  lemma LogsTrans(g: Geometry, b0: seq<Block>, log0: set<nat>, b1: seq<Block>, log1: set<nat>, b2: seq<Block>,
                  log2: set<nat>)
    requires Logs(g, b0, log0, b1, log1) && Logs(g, b1, log1, b2, log2)
    ensures Logs(g, b0, log0, b2, log2)
  {
    DirtyTrans(b0, b1, b2);
  }

  lemma Scanned(fs: Fs, b: nat, bi: nat)
    requires Shaped(fs) && AllUsed(fs, 0, b) && AllUsed(fs, b, b + bi)
    ensures AllUsed(fs, 0, b + bi)
    ensures bi == BPB || b + bi >= fs.g.size ==> AllUsed(fs, 0, b + BPB)
  {
  }

  lemma MapPosition(g: Geometry, i: nat, bi: nat)
    requires bi < BPB
    ensures MapBlock(g, BPB * i + bi) == g.bmapstart + i && (BPB * i + bi) % BPB == bi
  {
  }

  class Volume {
    const g: Geometry
    var blocks: seq<Block>
    var inodes: seq<Inode>
    ghost var owner: map<nat, Slot>
    ghost var logged: set<nat>          // blocks log_write has recorded in this transaction
    ghost var committed: seq<Fs>        // the states end_op has committed, one for each transaction

    constructor (fs: Fs, ghost ow: map<nat, Slot>)
      requires Partition(fs, ow, {})
      ensures Tidy() && Val() == fs && owner == ow && logged == {} && committed == [fs]
    {
      g, blocks, inodes := fs.g, fs.blocks, fs.inodes;
      owner, logged, committed := ow, {}, [fs];
    }

    function Val(): Fs
      reads this
    {
      Fs(g, blocks, inodes)
    }

    ghost predicate Tidy()
      reads this
    {
      Partition(Val(), owner, {})
    }

    /** balloc with bzero: the lowest free block, marked and zeroed; 0 if the disk is full. */
    method Balloc() returns (r: nat)
      requires Tidy()
      modifies this`blocks, this`logged
      ensures r == 0 <==> old(Full(Val()))
      ensures r == 0 ==> blocks == old(blocks) && logged == old(logged)
      ensures r != 0 ==> r < g.size && !old(Used(Val(), r)) && Val() == Zeroed(old(Val()), r)
      ensures r != 0 ==> AllUsed(old(Val()), 0, r)
      ensures r != 0 ==> logged == old(logged) + {MapBlock(g, r), r}
      ensures Dirty(old(blocks), blocks) <= if r == 0 then {} else {MapBlock(g, r), r}
      ensures old(logged) <= logged
    {
      var b := 0;
      ghost var i := 0;
      while b < g.size
        invariant blocks == old(blocks) && logged == old(logged)
        invariant b == BPB * i && AllUsed(Val(), 0, b)
      {
        var bi := ScanMapBlock(b, i);
        Scanned(Val(), b, bi);
        if bi < BPB && b + bi < g.size {
          MarkUsed(b, i, bi);
          return b + bi;
        }
        b, i := b + BPB, i + 1;
      }
      r := 0;
    }

    /** The inner loop of balloc: the first clear bit of free-map block i, which starts at block b. */
    method ScanMapBlock(b: nat, ghost i: nat) returns (bi: nat)
      requires Shaped(Val()) && b == BPB * i && b < g.size
      ensures bi <= BPB
      ensures AllUsed(Val(), b, b + bi)
      ensures bi < BPB && b + bi < g.size ==> !Used(Val(), b + bi)
      ensures bi < BPB ==> b + bi <= g.size
    {
      bi := 0;
      while bi < BPB && b + bi < g.size
        invariant bi <= BPB && b + bi <= g.size
        invariant AllUsed(Val(), b, b + bi)
      {
        MapPosition(g, i, 0);
        MapPosition(g, i, bi);
        MapBlockInRange(g, b + bi);
        if !MapBit(blocks[MapBlock(g, b)], bi) {
          return;
        }
        bi := bi + 1;
      }
    }

    method MarkUsed(b: nat, ghost i: nat, bi: nat)
      requires Tidy() && b == BPB * i && bi < BPB && b + bi < g.size && !Used(Val(), b + bi)
      modifies this`blocks, this`logged
      ensures b + bi != 0 && Val() == Zeroed(old(Val()), b + bi)
      ensures logged == old(logged) + {MapBlock(g, b + bi), b + bi}
      ensures Dirty(old(blocks), blocks) <= {MapBlock(g, b + bi), b + bi}
    {
      MapPosition(g, i, 0);
      MapPosition(g, i, bi);
      MapBlockInRange(g, b + bi);
      AllocKeeps(Val(), owner, {}, b + bi);
      blocks := blocks[MapBlock(g, b) := WithBit(blocks[MapBlock(g, b)], bi)];
      logged := logged + {MapBlock(g, b)};
      Bzero(b + bi);
    }

    method Bzero(b: nat)
      requires b < |blocks|
      modifies this`blocks, this`logged
      ensures blocks == old(blocks)[b := Zeros()] && logged == old(logged) + {b}
    {
      blocks := blocks[b := Zeros()];
      logged := logged + {b};
    }

    /** bfree; a clear bit would be the panic. */
    method Bfree(b: nat)
      requires Shaped(Val()) && b < g.size && Used(Val(), b)
      modifies this`blocks, this`logged
      ensures Val() == WithUnused(old(Val()), b) && logged == old(logged) + {MapBlock(g, b)}
      ensures Logs(g, old(blocks), old(logged), blocks, logged)
    {
      var m := MapBlock(g, b);
      MapBlockInRange(g, b);
      DirtyUpdate(blocks, m, WithoutBit(blocks[m], b % BPB));
      blocks := blocks[m := WithoutBit(blocks[m], b % BPB)];
      logged := logged + {m};
    }

    /** A direct slot of bmap. */
    method BmapDirect(inum: nat, bn: nat) returns (addr: nat, ghost maps: set<nat>)
      requires Tidy() && inum < g.ninodes && bn < NDIRECT
      modifies this`blocks, this`inodes, this`owner, this`logged
      ensures Tidy() && Reached(old(Val()), Val(), inum, bn, addr)
      ensures inodes[inum].addrs[NDIRECT] == old(inodes[inum].addrs[NDIRECT])
      ensures old(Value(Val(), Direct(inum, bn))) != 0 ==> logged == old(logged) && owner == old(owner)
      ensures logged <= old(logged) + Some(addr) + maps && |maps| <= Allocated(old(Val()), Val(), inum, bn)
      ensures Dirty(old(blocks), blocks) <= logged && Dirty(old(blocks), blocks) <= Some(addr) + maps
      ensures old(logged) <= logged
    {
      maps := {};
      addr := inodes[inum].addrs[bn];
      if addr == 0 {
        ghost var fs := Val();
        addr := Balloc();
        if addr == 0 {
          return;
        }
        maps := {MapBlock(g, addr)};
        var a: seq<nat> := inodes[inum].addrs[bn := addr];
        inodes := inodes[inum := inodes[inum].(addrs := a)];
        assert Filled(fs, owner, Val(), Direct(inum, bn), addr) by {
          FillDirect(fs, owner, inum, bn, addr);
          assert Val() == WithAddr(Zeroed(fs, addr), inum, bn, addr);
        }
        owner := owner[addr := Direct(inum, bn)];
      }
    }

    /** The indirect block of a file, allocated if there is none yet. */
    method IndirectBlock(inum: nat) returns (addr: nat, ghost maps: set<nat>)
      requires Tidy() && inum < g.ninodes
      modifies this`blocks, this`inodes, this`owner, this`logged
      ensures Tidy() && GotIndirect(old(Val()), Val(), inum, addr)
      ensures old(inodes[inum].addrs[NDIRECT]) != 0 ==> logged == old(logged) && owner == old(owner) && maps == {}
      ensures logged <= old(logged) + Some(addr) + maps
      ensures |maps| <= if old(inodes[inum].addrs[NDIRECT]) == 0 && addr != 0 then 1 else 0
      ensures Dirty(old(blocks), blocks) <= logged && Dirty(old(blocks), blocks) <= Some(addr) + maps
      ensures old(logged) <= logged
    {
      maps := {};
      addr := inodes[inum].addrs[NDIRECT];
      if addr == 0 {
        ghost var fs := Val();
        addr := Balloc();
        if addr == 0 {
          return;
        }
        maps := {MapBlock(g, addr)};
        var a: seq<nat> := inodes[inum].addrs[NDIRECT := addr];
        inodes := inodes[inum := inodes[inum].(addrs := a)];
        assert Filled(fs, owner, Val(), Indirect(inum), addr) by {
          FillIndirect(fs, owner, inum, addr);
          assert Val() == WithAddr(Zeroed(fs, addr), inum, NDIRECT, addr);
        }
        owner := owner[addr := Indirect(inum)];
      }
    }

    /** A fresh block, if there is one, as entry j of a file's indirect block. */
    method FillSlot(inum: nat, j: nat) returns (addr: nat, ghost maps: set<nat>)
      requires Tidy() && HasIndirect(Val(), inum) && j < NINDIRECT && Value(Val(), Entry(inum, j)) == 0
      modifies this`blocks, this`inodes, this`owner, this`logged
      ensures inodes == old(inodes)
      ensures addr == 0 ==> Val() == old(Val()) && owner == old(owner) && Full(Val())
      ensures addr != 0 ==> Filled(old(Val()), old(owner), Val(), Entry(inum, j), addr)
      ensures addr != 0 ==> owner == old(owner)[addr := Entry(inum, j)]
      ensures logged <= old(logged) + Some(addr) + {inodes[inum].addrs[NDIRECT]} + maps
      ensures |maps| <= if addr != 0 then 1 else 0
      ensures Dirty(old(blocks), blocks) <= logged
      ensures Dirty(old(blocks), blocks) <= Some(addr) + {inodes[inum].addrs[NDIRECT]} + maps
      ensures old(logged) <= logged
    {
      ghost var fs := Val();
      maps := {};
      var ind := inodes[inum].addrs[NDIRECT];
      addr := Balloc();
      if addr != 0 {
        maps := {MapBlock(g, addr)};
        DirtyUpdate(blocks, ind, WithWord(blocks[ind], j, addr));
        DirtyTrans(old(blocks), blocks, blocks[ind := WithWord(blocks[ind], j, addr)]);
        blocks := blocks[ind := WithWord(blocks[ind], j, addr)];
        logged := logged + {ind};
        FillEntry(fs, owner, inum, j, addr);
        assert Val() == WithEntry(Zeroed(fs, addr), inum, j, addr);
        owner := owner[addr := Entry(inum, j)];
      }
    }

    /** The entry for block bn in a file's indirect block, allocated if it is empty. */
    method BmapEntry(inum: nat, bn: nat) returns (addr: nat, ghost maps: set<nat>)
      requires Tidy() && HasIndirect(Val(), inum) && NDIRECT <= bn < MAXFILE
      modifies this`blocks, this`inodes, this`owner, this`logged
      ensures Tidy() && inodes == old(inodes) && Reached(old(Val()), Val(), inum, bn, addr)
      ensures old(Value(Val(), SlotOf(inum, bn))) != 0 ==> logged == old(logged) && owner == old(owner)
      ensures logged <= old(logged) + Touched(Val(), inum, bn) + maps
      ensures |maps| <= if old(Value(Val(), SlotOf(inum, bn))) == 0 && addr != 0 then 1 else 0
      ensures Dirty(old(blocks), blocks) <= logged && Dirty(old(blocks), blocks) <= Touched(Val(), inum, bn) + maps
      ensures old(logged) <= logged
    {
      maps := {};
      DirtySelf(blocks);
      addr := Word(blocks[inodes[inum].addrs[NDIRECT]], bn - NDIRECT);
      if addr == 0 {
        addr, maps := NewEntry(inum, bn);
      }
    }

    method NewEntry(inum: nat, bn: nat) returns (addr: nat, ghost maps: set<nat>)
      requires Tidy() && HasIndirect(Val(), inum) && NDIRECT <= bn < MAXFILE && Value(Val(), SlotOf(inum, bn)) == 0
      modifies this`blocks, this`inodes, this`owner, this`logged
      ensures Tidy() && inodes == old(inodes) && Reached(old(Val()), Val(), inum, bn, addr)
      ensures old(logged) <= logged <= old(logged) + Touched(Val(), inum, bn) + maps
      ensures |maps| <= if addr != 0 then 1 else 0
      ensures Dirty(old(blocks), blocks) <= logged && Dirty(old(blocks), blocks) <= Touched(Val(), inum, bn) + maps
    {
      ghost var fs, log, ind := Val(), logged, inodes[inum].addrs[NDIRECT];
      addr, maps := FillSlot(inum, bn - NDIRECT);
      assert Some(addr) + {ind} <= Touched(Val(), inum, bn) by {
        TouchedMost(Val(), inum, bn);
      }
      EntrySets(log, logged, Dirty(fs.blocks, blocks), Some(addr), {ind}, maps, Touched(Val(), inum, bn));
    }

    /** bmap. */
    method Bmap(inum: nat, bn: nat) returns (addr: nat, ghost maps: set<nat>)
      requires Tidy() && inum < g.ninodes && bn < MAXFILE
      modifies this`blocks, this`inodes, this`owner, this`logged
      ensures Tidy() && Reached(old(Val()), Val(), inum, bn, addr)
      ensures bn < NDIRECT ==> inodes[inum].addrs[NDIRECT] == old(inodes[inum].addrs[NDIRECT])
      ensures old(Value(Val(), SlotOf(inum, bn))) != 0 ==> logged == old(logged) && owner == old(owner)
      ensures logged <= old(logged) + Touched(Val(), inum, bn) + maps
      ensures |maps| <= Allocated(old(Val()), Val(), inum, bn)
      ensures Dirty(old(blocks), blocks) <= logged && Dirty(old(blocks), blocks) <= Touched(Val(), inum, bn) + maps
      ensures old(logged) <= logged
    {
      if bn < NDIRECT {
        addr, maps := BmapDirect(inum, bn);
      } else {
        addr, maps := BmapIndirect(inum, bn);
      }
    }

    /** The indirect range of bmap. */
    method BmapIndirect(inum: nat, bn: nat) returns (addr: nat, ghost maps: set<nat>)
      requires Tidy() && inum < g.ninodes && NDIRECT <= bn < MAXFILE
      modifies this`blocks, this`inodes, this`owner, this`logged
      ensures Tidy() && Reached(old(Val()), Val(), inum, bn, addr)
      ensures old(Value(Val(), SlotOf(inum, bn))) != 0 ==> logged == old(logged) && owner == old(owner)
      ensures logged <= old(logged) + Touched(Val(), inum, bn) + maps
      ensures |maps| <= Allocated(old(Val()), Val(), inum, bn)
      ensures Dirty(old(blocks), blocks) <= logged && Dirty(old(blocks), blocks) <= Touched(Val(), inum, bn) + maps
      ensures old(logged) <= logged
    {
      ghost var fs := Val();
      var ind, maps1 := IndirectBlock(inum);
      ghost var fs1, log1 := Val(), logged;
      if ind == 0 {
        NoIndirect(fs, fs1, inum, bn);
        return 0, maps1;
      }
      Addressed(fs1, owner, inum);
      ghost var maps2;
      addr, maps2 := BmapEntry(inum, bn);
      DirtyTrans(fs.blocks, fs1.blocks, blocks);
      TouchedMost(Val(), inum, bn);
      IndirectSets(old(logged), log1, logged, Dirty(fs.blocks, fs1.blocks), Dirty(fs1.blocks, blocks),
                   Dirty(fs.blocks, blocks), Some(ind), Touched(Val(), inum, bn), maps1, maps2);
      ReachedIndirect(fs, fs1, Val(), inum, ind, bn, addr);
      UnionSize(maps1, maps2);
      maps := maps1 + maps2;
    }

    /** The first loop of itrunc. */
    method TruncDirect(inum: nat)
      requires Tidy() && inum < g.ninodes
      modifies this`blocks, this`inodes, this`owner, this`logged
      ensures Trimming(old(Val()), old(owner), Val(), owner, inum, NDIRECT)
      ensures Logs(g, old(blocks), old(logged), blocks, logged)
    {
      ghost var fs, ow := Val(), owner;
      TrimmingStart(fs, owner, inum);
      LogsNothing(g, blocks, logged);
      var i := 0;
      while i < NDIRECT
        invariant Trimming(fs, ow, Val(), owner, inum, i)
        invariant Logs(g, old(blocks), old(logged), blocks, logged)
      {
        ghost var b, log := blocks, logged;
        FreeAddress(inum, i, fs, ow);
        LogsTrans(g, old(blocks), old(logged), b, log, blocks, logged);
        i := i + 1;
      }
    }

    /** One turn of that loop. */
    method FreeAddress(inum: nat, i: nat, ghost fs: Fs, ghost ow: map<nat, Slot>)
      requires Trimming(fs, ow, Val(), owner, inum, i) && i < NDIRECT
      modifies this`blocks, this`inodes, this`owner, this`logged
      ensures Trimming(fs, ow, Val(), owner, inum, i + 1)
      ensures Logs(g, old(blocks), old(logged), blocks, logged)
    {
      TrimmingNext(fs, ow, Val(), owner, inum, i);
      LogsNothing(g, blocks, logged);
      var b := inodes[inum].addrs[i];
      if b != 0 {
        MapBlockInRange(g, b);
        Bfree(b);
        var a: seq<nat> := inodes[inum].addrs[i := 0];
        inodes := inodes[inum := inodes[inum].(addrs := a)];
        owner := owner - {b};
        assert Val() == WithAddr(WithUnused(old(Val()), b), inum, i, 0);
      }
    }

    /** The loop of itrunc over the entries of the indirect block. */
    method TruncEntries(inum: nat)
      requires Tidy() && HasIndirect(Val(), inum)
      modifies this`blocks, this`logged
      ensures Emptying(old(Val()), owner, Val(), inum, NINDIRECT)
      ensures Logs(g, old(blocks), old(logged), blocks, logged)
    {
      EmptyingStart(Val(), owner, inum);
      LogsNothing(g, blocks, logged);
      var j := 0;
      while j < NINDIRECT
        invariant j <= NINDIRECT && Emptying(old(Val()), owner, Val(), inum, j)
        invariant Logs(g, old(blocks), old(logged), blocks, logged)
      {
        EmptyingNext(old(Val()), owner, Val(), inum, j);
        var b := Word(blocks[inodes[inum].addrs[NDIRECT]], j);
        if b != 0 {
          MapBlockInRange(g, b);
          ghost var was, log := blocks, logged;
          Bfree(b);
          LogsTrans(g, old(blocks), old(logged), was, log, blocks, logged);
        }
        j := j + 1;
      }
    }

    /** The part of itrunc after the first loop, up to the size. */
    method TruncIndirect(inum: nat)
      requires Tidy() && inum < g.ninodes
      modifies this`blocks, this`inodes, this`owner, this`logged
      ensures Tidy() && owner == old(owner) - IndirectBlocks(old(owner), inum)
      ensures OnlyMap(old(Val()), Val()) && inodes == WithAddr(old(Val()), inum, NDIRECT, 0).inodes
      ensures Logs(g, old(blocks), old(logged), blocks, logged)
    {
      var ind := inodes[inum].addrs[NDIRECT];
      if ind != 0 {
        Addressed(Val(), owner, inum);
        TruncEntries(inum);
        EmptyingEnd(old(Val()), owner, Val(), inum);
        MapBlockInRange(g, ind);
        ghost var was, log := blocks, logged;
        Bfree(ind);
        LogsTrans(g, old(blocks), old(logged), was, log, blocks, logged);
        var a: seq<nat> := inodes[inum].addrs[NDIRECT := 0];
        inodes := inodes[inum := inodes[inum].(addrs := a)];
        owner := owner - IndirectBlocks(owner, inum);
      } else {
        NoEntries(Val(), owner, inum);
        LogsNothing(g, blocks, logged);
        assert inodes[inum].addrs[NDIRECT := 0] == inodes[inum].addrs;
      }
    }

    method Iupdate(inum: nat)
      modifies this`logged
      ensures logged == old(logged) + {InodeBlock(g, inum)}
    {
      logged := logged + {InodeBlock(g, inum)};
    }

    /** itrunc: the file is empty, its blocks and no others are free, every other file is as it was. */
    method Itrunc(inum: nat)
      requires Tidy() && inum < g.ninodes
      modifies this`blocks, this`inodes, this`owner, this`logged
      ensures Tidy() && Contains(Val(), inum, []) && NoAddresses(inodes[inum]) && Spares(old(Val()), Val(), inum)
      ensures forall b :: 0 <= b < g.size ==>
                (Used(Val(), b) <==> old(Used(Val(), b)) && !(b in old(owner) && old(owner)[b].inum == inum))
      ensures LogsMap(g, old(logged) + {InodeBlock(g, inum)}, logged) && Changed(old(Val()), Val()) <= logged
    {
      ghost var fs, ow := Val(), owner;
      TruncDirect(inum);
      DroppedAll(fs, ow, owner, inum);
      ghost var b, log := blocks, logged;
      TruncIndirect(inum);
      LogsTrans(g, fs.blocks, old(logged), b, log, blocks, logged);
      assert owner == Without(ow, inum);
      ghost var cut := Val();
      inodes := inodes[inum := inodes[inum].(size := 0)];
      SizedKeeps(cut, owner, inum, 0);
      TruncatedSpares(fs, ow, Val(), inum);
      forall b | 0 <= b < g.size
        ensures Used(Val(), b) <==> Used(fs, b) && !(b in ow && ow[b].inum == inum)
      {
        TruncatedFrees(fs, ow, Val(), inum, b);
      }
      Iupdate(inum);
      ChangedOne(fs, Val(), inum);
    }

    /** Reach the block of position a of a file and copy bytes into it. The copy fails unless
        `whole`, with only these bytes in; then log_write is not called. */
    method WriteBlock(inum: nat, a: nat, bytes: seq<Byte>, whole: bool)
      returns (addr: nat, ghost mid: Fs, ghost maps: set<nat>)
      requires Tidy() && inum < g.ninodes && a < MAXBYTES && a % BSIZE + |bytes| <= BSIZE
      modifies this`blocks, this`inodes, this`owner, this`logged
      ensures Tidy() && Partition(mid, owner, {}) && Reached(old(Val()), mid, inum, a / BSIZE, addr)
      ensures addr == 0 ==> Val() == mid
      ensures addr != 0 ==> Mapped(mid, inum, a) && Val() == Written(mid, inum, a, bytes)
      ensures logged <= old(logged) + Touched(mid, inum, a / BSIZE) + maps
      ensures |maps| <= Allocated(old(Val()), mid, inum, a / BSIZE)
      ensures Dirty(old(blocks), blocks) <= Touched(mid, inum, a / BSIZE) + maps
      ensures Dirty(old(blocks), blocks) <= logged + if whole || bytes == [] then {} else BlockAt(Val(), inum, a)
      ensures old(logged) <= logged
    {
      addr, maps := Bmap(inum, a / BSIZE);
      mid := Val();
      if addr != 0 {
        ReachedMapped(mid, owner, inum, a);
        WrittenKeeps(mid, owner, inum, a, bytes);
        WrittenInPlace(mid, owner, inum, a, bytes);
        SpliceNothing(blocks[addr], a % BSIZE, bytes);
        DirtyUpdate(blocks, addr, SpliceBlock(blocks[addr], a % BSIZE, bytes));
        DirtyTrans(old(blocks), blocks, blocks[addr := SpliceBlock(blocks[addr], a % BSIZE, bytes)]);
        blocks := blocks[addr := SpliceBlock(blocks[addr], a % BSIZE, bytes)];
        if whole {
          logged := logged + {addr};
        }
      }
    }

    /** One turn of writei's loop, after tot bytes: `copied` more, into one block. */
    method WriteTurn(inum: nat, data: seq<Byte>, off: nat, tot: nat, copied: nat, whole: bool,
                     ghost fs: Fs, ghost log: set<nat>, ghost t: Tally)
      returns (full: bool, ghost t': Tally)
      requires Writing(fs, Val(), owner, log, logged, inum, off, data, tot, t)
      requires tot + copied <= |data| && off + tot < MAXBYTES && (off + tot) % BSIZE + copied <= BSIZE
      requires t.k == 0 ==> Val() == fs && tot == 0 && NoHoles(fs, inum) && off <= fs.inodes[inum].size
      requires Dirty(fs.blocks, blocks) <= logged
      modifies this`blocks, this`inodes, this`owner, this`logged
      ensures Writing(fs, Val(), owner, log, logged, inum, off, data, if full then tot else tot + copied, t')
      ensures Dirty(fs.blocks, blocks)
              <= logged + if full || whole || copied == 0 then {} else BlockAt(Val(), inum, off + tot)
      ensures t'.k == t.k + 1
      ensures full ==> NoRoom(Val(), inum, off + tot)
    {
      ghost var before, log1 := Val(), logged;
      var addr;
      ghost var mid, maps;
      addr, mid, maps := WriteBlock(inum, off + tot, data[tot..tot + copied], whole);
      full := addr == 0;
      DirtyTrans(fs.blocks, before.blocks, blocks);
      t' := WritingTurn(fs, before, mid, Val(), owner, log, log1, logged, inum, off, data, tot, copied, t, addr, maps);
    }

    /** The same with the sizes worked out: the rest of the block or of the data, or less if
        the source faults. */
    method WriteNext(inum: nat, data: seq<Byte>, off: nat, fault: nat, landed: nat, tot: nat,
                     ghost fs: Fs, ghost log: set<nat>, ghost t: Tally)
      returns (stop: bool, got: nat, ghost t': Tally)
      requires Writing(fs, Val(), owner, log, logged, inum, off, data, tot, t) && Spans(off, |data|, tot, t.k)
      requires t.k == 0 ==> Val() == fs && NoHoles(fs, inum) && off <= fs.inodes[inum].size
      requires tot < |data| && off + |data| <= MAXBYTES && landed <= fault <= |data| && tot <= fault
      requires Dirty(fs.blocks, blocks) <= logged
      modifies this`blocks, this`inodes, this`owner, this`logged
      ensures tot <= got <= |data| && t'.k == t.k + 1 && Started(off, |data|, t'.k)
      ensures Writing(fs, Val(), owner, log, logged, inum, off, data, got, t')
      ensures !stop ==> tot < got <= fault && Spans(off, |data|, got, t'.k)
      ensures Dirty(fs.blocks, blocks) <= logged + Torn(Val(), inum, off, tot, got)
      ensures !stop ==> Dirty(fs.blocks, blocks) <= logged
      ensures stop ==> Stopped(Val(), inum, off, tot, |data|, fault)
      ensures stop && got != tot ==> got == landed && fault < |data|
    {
      var m := Chunk(off, |data|, tot);
      var copied := Copied(tot, m, fault, landed);
      SpansStarted(off, |data|, tot, t.k);
      SpansStep(off, |data|, tot, t.k);
      var full;
      full, t' := WriteTurn(inum, data, off, tot, copied, copied == m, fs, log, t);
      got := if full then tot else tot + copied;
      stop := full || copied < m;
    }

    /** The loop of writei. */
    method WriteLoop(inum: nat, data: seq<Byte>, off: nat, fault: nat, landed: nat)
      returns (tot: nat, ghost got: nat, ghost t: Tally)
      requires Tidy() && inum < g.ninodes && NoHoles(Val(), inum)
      requires off <= inodes[inum].size && off + |data| <= MAXBYTES && landed <= fault <= |data|
      modifies this`blocks, this`inodes, this`owner, this`logged
      ensures tot <= got <= |data| && tot <= fault && Started(off, |data|, t.k)
      ensures Writing(old(Val()), Val(), owner, old(logged), logged, inum, off, data, got, t)
      ensures got != tot ==> got == landed && fault < |data|
      ensures tot < |data| ==> Stopped(Val(), inum, off, tot, |data|, fault)
      ensures Dirty(old(blocks), blocks) <= logged + Torn(Val(), inum, off, tot, got)
    {
      ghost var fs, log := Val(), logged;
      DirtySelf(blocks);
      tot, got, t := 0, 0, Tally({}, {}, 0, 0);
      WritingStart(fs, owner, log, inum, off, data);
      while tot < |data|
        invariant got == tot <= fault && tot <= |data|
        invariant Writing(fs, Val(), owner, log, logged, inum, off, data, got, t)
        invariant Started(off, |data|, t.k) && Spans(off, |data|, tot, t.k)
        invariant t.k == 0 ==> Val() == fs
        invariant Dirty(fs.blocks, blocks) <= logged
      {
        var stop, next;
        stop, next, t := WriteNext(inum, data, off, fault, landed, tot, fs, log, t);
        got := next;
        if stop {
          return;
        }
        tot := next;
      }
    }

    /** writei on a file without holes: -1 for a bad range; otherwise the number of bytes written,
        short only when the disk is full or the source cannot be read. `got` of the bytes are in
        the blocks. Other files, with holes or without, are as they were. */
    method Writei(inum: nat, data: seq<Byte>, off: nat, fault: nat, landed: nat, ghost c: seq<Byte>)
      returns (r: int, ghost got: nat, ghost c': seq<Byte>)
      requires Tidy() && Contains(Val(), inum, c) && off < WORD && |data| < WORD && landed <= fault <= |data|
      modifies this`blocks, this`inodes, this`owner, this`logged
      ensures Tidy() && Contains(Val(), inum, c') && Spares(old(Val()), Val(), inum)
      ensures r == -1 <==> off > |c| || off + |data| > MAXBYTES
      ensures r == -1 ==> Val() == old(Val()) && c' == c && logged == old(logged)
      ensures r != -1 ==> 0 <= r <= fault && r <= got <= |data| && Outcome(c, c', off, data[..got], r)
      ensures r != -1 && r < |data| ==> Stopped(Val(), inum, off, r, |data|, fault)
      ensures r != -1 && got != r ==> got == landed && fault < |data|
      ensures old(logged) <= logged
      ensures r != -1 ==> AllLogged(old(Val()), Val(), logged, inum, off, r, got)
      ensures r == -1 || got == r ==> Changed(old(Val()), Val()) <= logged
      ensures |data| <= MAXWRITE ==> |logged + Changed(old(Val()), Val())| <= |old(logged)| + MAXOPBLOCKS
    {
      RangeTest(off, |data|);
      ChangedSelf(Val());
      assert logged + Changed(Val(), Val()) == logged;
      if off > inodes[inum].size || (off + |data|) % WORD < off || (off + |data|) % WORD > MAXBYTES {
        SparesSelf(Val(), inum);
        return -1, 0, c;
      }
      r, got, c' := WriteRange(inum, data, off, fault, landed, c);
      assert got == r ==> Torn(Val(), inum, off, r, got) == {};
    }

    method GrowSize(inum: nat, off: nat, tot: nat)
      requires inum < |inodes|
      modifies this`inodes
      ensures Val() == Sized(old(Val()), inum, Grown(old(inodes[inum].size), off, tot))
    {
      if off + tot > inodes[inum].size {
        inodes := inodes[inum := inodes[inum].(size := off + tot)];
      }
    }

    /** writei, once the range has been accepted. */
    method WriteRange(inum: nat, data: seq<Byte>, off: nat, fault: nat, landed: nat, ghost c: seq<Byte>)
      returns (tot: nat, ghost got: nat, ghost c': seq<Byte>)
      requires Tidy() && Contains(Val(), inum, c) && off <= inodes[inum].size && off + |data| <= MAXBYTES
      requires landed <= fault <= |data|
      modifies this`blocks, this`inodes, this`owner, this`logged
      ensures Tidy() && Contains(Val(), inum, c') && Spares(old(Val()), Val(), inum) && tot <= got <= |data|
      ensures tot <= fault && Outcome(c, c', off, data[..got], tot)
      ensures tot < |data| ==> Stopped(Val(), inum, off, tot, |data|, fault)
      ensures got != tot ==> got == landed && fault < |data|
      ensures old(logged) <= logged && AllLogged(old(Val()), Val(), logged, inum, off, tot, got)
      ensures |data| <= MAXWRITE ==> |logged + Changed(old(Val()), Val())| <= |old(logged)| + MAXOPBLOCKS
    {
      ghost var t;
      tot, got, t := WriteLoop(inum, data, off, fault, landed);
      c' := FinishWrite(inum, data, off, tot, got, old(Val()), old(logged), t);
    }

    /** writei after its loop, which has gone from fs and log to here. */
    method FinishWrite(inum: nat, data: seq<Byte>, off: nat, tot: nat, ghost got: nat,
                       ghost fs: Fs, ghost log: set<nat>, ghost t: Tally) returns (ghost c': seq<Byte>)
      requires Writing(fs, Val(), owner, log, logged, inum, off, data, got, t) && NoHoles(fs, inum)
      requires off <= fs.inodes[inum].size && tot <= got && off + |data| <= MAXBYTES && Started(off, |data|, t.k)
      requires Dirty(fs.blocks, blocks) <= logged + Torn(Val(), inum, off, tot, got)
      modifies this`inodes, this`logged
      ensures Tidy() && Contains(Val(), inum, c') && Spares(fs, Val(), inum)
      ensures old(NoRoom(Val(), inum, off + tot)) ==> NoRoom(Val(), inum, off + tot)
      ensures Outcome(Content(fs, inum), c', off, data[..got], tot)
      ensures log <= logged && AllLogged(fs, Val(), logged, inum, off, tot, got)
      ensures |data| <= MAXWRITE ==> |logged + Changed(fs, Val())| <= |log| + MAXOPBLOCKS
    {
      Finished(fs, Val(), owner, log, logged, inum, off, data, tot, got, t);
      GrowSize(inum, off, tot);
      Iupdate(inum);
      c' := Content(Val(), inum);
      GrownLogged(fs, old(Val()), Val(), old(logged), logged, inum, off, tot, got,
                  Grown(fs.inodes[inum].size, off, tot));
    }

    /** readi on a file without holes: the bytes from off on, at most n of them and none past the
        end; -1 if the destination takes fewer than that. Nothing on disk changes. */
    method Readi(inum: nat, off: nat, n: nat, room: nat, ghost c: seq<Byte>) returns (r: int, out: seq<Byte>)
      requires Tidy() && Contains(Val(), inum, c) && off < WORD && n < WORD
      modifies this`blocks, this`inodes, this`owner, this`logged
      ensures Tidy() && Val() == old(Val()) && owner == old(owner) && logged == old(logged)
      ensures off > |c| || off + n >= WORD ==> r == 0 && out == []
      ensures off <= |c| && off + n < WORD ==>
                var m := if off + n > |c| then |c| - off else n;
                if room < m then r == -1 else r == m && out == c[off..off + m]
    {
      if off > inodes[inum].size || (off + n) % WORD < off {
        return 0, [];
      }
      var len := if off + n > inodes[inum].size then inodes[inum].size - off else n;
      r, out := ReadLoop(inum, off, len, room, c);
    }

    method ReadBlock(inum: nat, a: nat, m: nat, ghost c: seq<Byte>) returns (bytes: seq<Byte>)
      requires Tidy() && Contains(Val(), inum, c) && 0 < m && a + m <= |c| && a % BSIZE + m <= BSIZE
      modifies this`blocks, this`inodes, this`owner, this`logged
      ensures Val() == old(Val()) && owner == old(owner) && logged == old(logged)
      ensures bytes == c[a..a + m]
    {
      BlockSlice(Val(), inum, a, m);
      var addr, _ := Bmap(inum, a / BSIZE);
      bytes := blocks[addr][a % BSIZE..a % BSIZE + m];
    }

    /** One turn of readi's loop: m more bytes, from one block. */
    method ReadNext(inum: nat, off: nat, tot: nat, m: nat, read: seq<Byte>, ghost c: seq<Byte>) returns (out: seq<Byte>)
      requires 0 < m && off + tot + m <= |c| && (off + tot) % BSIZE + m <= BSIZE
      requires Tidy() && Contains(Val(), inum, c) && read == c[off..off + tot]
      modifies this`blocks, this`inodes, this`owner, this`logged
      ensures Tidy() && Contains(Val(), inum, c)
      ensures Val() == old(Val()) && owner == old(owner) && logged == old(logged)
      ensures out == c[off..off + tot + m]
    {
      var bytes := ReadBlock(inum, off + tot, m, c);
      SliceJoin(c, off, off + tot, off + tot + m);
      out := read + bytes;
    }

    method ReadLoop(inum: nat, off: nat, n: nat, room: nat, ghost c: seq<Byte>) returns (r: int, out: seq<Byte>)
      requires Tidy() && Contains(Val(), inum, c) && off + n <= |c|
      modifies this`blocks, this`inodes, this`owner, this`logged
      ensures Tidy() && Val() == old(Val()) && owner == old(owner) && logged == old(logged)
      ensures if room < n then r == -1 else r == n && out == c[off..off + n]
    {
      out := [];
      var tot := 0;
      while tot < n
        invariant tot <= n && tot <= room && out == c[off..off + tot] && Tidy() && Contains(Val(), inum, c)
        invariant Val() == old(Val()) && owner == old(owner) && logged == old(logged)
      {
        var m := Chunk(off, n, tot);
        var more := ReadNext(inum, off, tot, m, out, c);
        if room < tot + m {
          return -1, out;
        }
        out, tot := more, tot + m;
      }
      r := tot;
    }

    /** begin_op. */
    ghost method BeginOp()
      modifies this`logged
      ensures logged == {}
    {
      logged := {};
    }

    /** end_op, the last operation's: what has been logged since `base` reaches the disk. */
    ghost method EndOp(base: Fs)
      requires |base.blocks| == |blocks|
      modifies this`committed
      ensures committed == old(committed) + [Commit(base, Val(), logged)]
    {
      committed := committed + [Commit(base, Val(), logged)];
    }

    /** One transaction of filewrite: at most MAXWRITE bytes from position i of the data, to where
        the file's offset is. The contents were `start` before the first one and are c now. */
    method WritePart(inum: nat, off: nat, data: seq<Byte>, i: nat, pos: nat, fault: nat, landed: nat,
                     ghost fs: Fs, ghost start: seq<Byte>, ghost c: seq<Byte>)
      returns (r: int, n1: nat, pos': nat, ghost w: nat, ghost c': seq<Byte>)
      requires Tidy() && Contains(Val(), inum, c) && pos == off + i < WORD && i < |data| < WORD
      requires landed <= fault <= |data| && i <= fault
      requires Part(start, c, off, data, i, i) && Spares(fs, Val(), inum)
      modifies this
      ensures Tidy() && Contains(Val(), inum, c') && Spares(fs, Val(), inum)
      ensures n1 == PartSize(|data|, i) && r <= n1
      ensures off <= pos' <= off + w && Part(start, c', off, data, w, pos' - off)
      ensures r == n1 ==> w == i + n1 <= fault && pos' == off + w < WORD
      ensures r < n1 ==> Halted(Val(), inum, off, pos' - off, |data|, fault, |start|)
      ensures committed == old(committed) + [Commit(old(Val()), Val(), logged)]
      ensures |Changed(old(Val()), Commit(old(Val()), Val(), logged))| <= MAXOPBLOCKS
      ensures pos' == off + w ==> Commit(old(Val()), Val(), logged) == Val()
    {
      BeginOp();
      r, n1, pos', w, c' := WriteChunk(inum, off, data, i, pos, fault, landed, fs, start, c);
      CommitChanges(old(Val()), Val(), logged);
      EndOp(old(Val()));
    }

    /** The same, after the transactions that went through `states` on disk. */
    method WriteStep(inum: nat, off: nat, data: seq<Byte>, i: nat, pos: nat, fault: nat, landed: nat,
                     ghost fs: Fs, ghost start: seq<Byte>, ghost c: seq<Byte>, ghost states: seq<Fs>,
                     ghost log0: seq<Fs>)
      returns (r: int, n1: nat, pos': nat, ghost w: nat, ghost c': seq<Byte>, ghost states': seq<Fs>)
      requires Tidy() && Contains(Val(), inum, c) && pos == off + i < WORD && i < |data| < WORD
      requires landed <= fault <= |data| && i <= fault
      requires Part(start, c, off, data, i, i) && Spares(fs, Val(), inum)
      requires Trailing(states, fs, log0, committed, inum, off, data, start)
      requires Last(states) == Val() && i == Reaching(|states| - 1, |data|)
      modifies this
      ensures Tidy() && Contains(Val(), inum, c') && Spares(fs, Val(), inum)
      ensures n1 == PartSize(|data|, i) && r <= n1
      ensures off <= pos' <= off + w && Part(start, c', off, data, w, pos' - off)
      ensures r == n1 ==> w == i + n1 <= fault && pos' == off + w < WORD
      ensures r < n1 ==> Halted(Val(), inum, off, pos' - off, |data|, fault, |start|)
      ensures Trailing(states', fs, log0, committed, inum, off, data, start)
      ensures pos' == off + w ==> Last(states') == Val()
      ensures r == n1 ==> i + n1 == Reaching(|states'| - 1, |data|)
    {
      r, n1, pos', w, c' := WritePart(inum, off, data, i, pos, fault, landed, fs, start, c);
      states' := TrailingNext(states, fs, log0, old(committed), old(Val()), Val(), logged, inum, off, data, i,
                              start, c);
    }

    /** What that transaction does between begin_op and end_op. */
    method WriteChunk(inum: nat, off: nat, data: seq<Byte>, i: nat, pos: nat, fault: nat, landed: nat,
                      ghost fs: Fs, ghost start: seq<Byte>, ghost c: seq<Byte>)
      returns (r: int, n1: nat, pos': nat, ghost w: nat, ghost c': seq<Byte>)
      requires Tidy() && Contains(Val(), inum, c) && pos == off + i < WORD && i < |data| < WORD
      requires landed <= fault <= |data| && i <= fault && logged == {}
      requires Part(start, c, off, data, i, i) && Spares(fs, Val(), inum)
      modifies this`blocks, this`inodes, this`owner, this`logged
      ensures Tidy() && Contains(Val(), inum, c') && Spares(fs, Val(), inum) && |blocks| == |old(blocks)|
      ensures n1 == PartSize(|data|, i) && r <= n1
      ensures off <= pos' <= off + w && Part(start, c', off, data, w, pos' - off)
      ensures r == n1 ==> w == i + n1 <= fault && pos' == off + w < WORD
      ensures r < n1 ==> Halted(Val(), inum, off, pos' - off, |data|, fault, |start|)
      ensures |logged + Changed(old(Val()), Val())| <= MAXOPBLOCKS
      ensures pos' == off + w ==> Changed(old(Val()), Val()) <= logged
    {
      n1 := PartSize(|data|, i);
      ghost var got;
      var piece, f := data[i..i + n1], Clamp(fault, i, n1);
      r, got, c' := WritePiece(inum, piece, pos, f, Clamp(landed, i, n1), c);
      pos' := if r > 0 then pos + r else pos;
      SparesTrans(fs, old(Val()), Val(), inum);
      w := ChunkWritten(Val(), inum, off, data, i, n1, piece, f, pos, pos', fault, start, c, c', r, got);
    }

    /** writei within one transaction. */
    method WritePiece(inum: nat, piece: seq<Byte>, pos: nat, fault: nat, landed: nat, ghost c: seq<Byte>)
      returns (r: int, ghost got: nat, ghost c': seq<Byte>)
      requires Tidy() && Contains(Val(), inum, c) && pos < WORD && |piece| <= MAXWRITE
      requires landed <= fault <= |piece| && logged == {}
      modifies this`blocks, this`inodes, this`owner, this`logged
      ensures Tidy() && Contains(Val(), inum, c') && Spares(old(Val()), Val(), inum) && |blocks| == |old(blocks)|
      ensures Pieced(Val(), inum, c, c', pos, piece, fault, r, got)
      ensures |logged + Changed(old(Val()), Val())| <= MAXOPBLOCKS
      ensures r == -1 || got == r ==> Changed(old(Val()), Val()) <= logged
    {
      r, got, c' := Writei(inum, piece, pos, fault, landed, c);
    }

    /** filewrite on an inode: all of the data, in transactions that each fit the log, or -1.
        Even then the file is the old one with a prefix of the data written over it; and so it
        is in each of the states that reach the disk. */
    method Filewrite(inum: nat, off: nat, data: seq<Byte>, fault: nat, landed: nat, ghost start: seq<Byte>)
      returns (ret: int, pos: nat, ghost w: nat, ghost c: seq<Byte>)
      requires Tidy() && Contains(Val(), inum, start) && off < WORD && |data| < WORD / 2 && landed <= fault <= |data|
      modifies this
      ensures Tidy() && Contains(Val(), inum, c) && Spares(old(Val()), Val(), inum)
      ensures ret == |data| || ret == -1
      ensures w <= |data| && off <= pos <= off + w && Part(start, c, off, data, w, pos - off)
      ensures ret == |data| ==> w == |data| && pos == off + |data|
      ensures ret == -1 ==> Halted(Val(), inum, off, pos - off, |data|, fault, |start|)
      ensures old(committed) <= committed
      ensures Trail(Since(old(Val()), old(committed), committed), inum, off, data, start)
      ensures pos == off + w ==> Last(Since(old(Val()), old(committed), committed)) == Val()
    {
      var i := 0;
      ghost var fs, log0, states := Val(), committed, [Val()];
      pos, w, c := off, 0, start;
      PartStart(start, off, data);
      SparesSelf(fs, inum);
      while i < |data|
        invariant Tidy() && Contains(Val(), inum, c) && Spares(fs, Val(), inum)
        invariant i == w <= fault && i <= |data| && pos == off + i < WORD && Part(start, c, off, data, i, i)
        invariant Trailing(states, fs, log0, committed, inum, off, data, start)
        invariant Last(states) == Val() && i == Reaching(|states| - 1, |data|)
      {
        var r, n1;
        r, n1, pos, w, c, states := WriteStep(inum, off, data, i, pos, fault, landed, fs, start, c, states, log0);
        if r != n1 {
          break;
        }
        i := i + r;
      }
      SinceStates(fs, log0, states);
      ret := if i == |data| then |data| else -1;
    }
  }

  /** How much of n bytes one transaction of filewrite takes from position i on. */
  function PartSize(n: nat, i: nat): (m: nat)
    requires i < n
    ensures 0 < m <= n - i && m <= MAXWRITE
  {
    if n - i > MAXWRITE then MAXWRITE else n - i
  }

  /** How many of n bytes have been written when j transactions have done all they should. */
  function Reaching(j: nat, n: nat): nat {
    if j * MAXWRITE < n then j * MAXWRITE else n
  }

  lemma ReachingNext(j: nat, n: nat)
    requires Reaching(j, n) < n
    ensures Reaching(j, n) + PartSize(n, Reaching(j, n)) == Reaching(j + 1, n)
  {
    assert (j + 1) * MAXWRITE == j * MAXWRITE + MAXWRITE;
  }

  /** The disk once the blocks in `logged` have been committed over base. */
  function Commit(base: Fs, fs: Fs, logged: set<nat>): (r: Fs)
    requires |base.blocks| == |fs.blocks|
    ensures |r.blocks| == |fs.blocks| && r.inodes == fs.inodes && r.g == fs.g
  {
    fs.(blocks := seq(|fs.blocks|, b requires 0 <= b < |fs.blocks| =>
                    if b in logged then fs.blocks[b] else base.blocks[b]))
  }

  /** Of the blocks that differ, exactly those that were logged reach the disk. */
  lemma CommitChanges(base: Fs, fs: Fs, logged: set<nat>)
    requires |base.blocks| == |fs.blocks|
    ensures Dirty(base.blocks, Commit(base, fs, logged).blocks) == Dirty(base.blocks, fs.blocks) * logged
    ensures |Changed(base, Commit(base, fs, logged))| <= |logged + Changed(base, fs)|
    ensures Changed(base, fs) <= logged ==> Commit(base, fs, logged) == fs
  {
    SubsetSize(Changed(base, Commit(base, fs, logged)), logged + Changed(base, fs));
    if Changed(base, fs) <= logged {
      forall b | 0 <= b < |fs.blocks| ensures Commit(base, fs, logged).blocks[b] == fs.blocks[b] {
        assert b !in logged ==> b !in Dirty(base.blocks, fs.blocks);
      }
    }
  }

  function Last<T>(s: seq<T>): T
    requires s != []
  {
    s[|s| - 1]
  }

  /** The states from fs on, of those committed since log0. */
  function Since(fs: Fs, log0: seq<Fs>, log: seq<Fs>): (states: seq<Fs>)
    requires log0 <= log
    ensures states != []
  {
    [fs] + log[|log0|..]
  }

  /** `states` runs from fs through those committed since log0. */
  ghost predicate Trailing(states: seq<Fs>, fs: Fs, log0: seq<Fs>, log: seq<Fs>, inum: nat, off: nat, data: seq<Byte>,
                           start: seq<Byte>) {
    Trail(states, inum, off, data, start) && states[0] == fs && log == log0 + states[1..]
  }

  lemma SinceStates(fs: Fs, log0: seq<Fs>, states: seq<Fs>)
    requires states != [] && states[0] == fs
    ensures Since(fs, log0, log0 + states[1..]) == states
  {
    assert (log0 + states[1..])[|log0|..] == states[1..];
  }

  /** The states filewrite goes through on disk: each transaction fits the log, and after each
      but the last the file is `start` with as much of the data written over it as that many
      transactions take. */
  ghost predicate Trail(states: seq<Fs>, inum: nat, off: nat, data: seq<Byte>, start: seq<Byte>) {
    && states != [] && Bounded(states)
    && forall j :: 0 <= j < |states| - 1 ==> StateAfter(states[j], inum, off, data, start, j)
  }

  ghost predicate StateAfter(fs: Fs, inum: nat, off: nat, data: seq<Byte>, start: seq<Byte>, j: nat) {
    exists c :: Contains(fs, inum, c) && Part(start, c, off, data, Reaching(j, |data|), Reaching(j, |data|))
  }

  lemma TrailNext(states: seq<Fs>, s: Fs, inum: nat, off: nat, data: seq<Byte>, start: seq<Byte>, c: seq<Byte>)
    requires Trail(states, inum, off, data, start) && |Changed(Last(states), s)| <= MAXOPBLOCKS
    requires Contains(Last(states), inum, c)
    requires Part(start, c, off, data, Reaching(|states| - 1, |data|), Reaching(|states| - 1, |data|))
    ensures Trail(states + [s], inum, off, data, start)
  {
    BoundedNext(states, s);
    assert StateAfter(Last(states), inum, off, data, start, |states| - 1);
    forall j | 0 <= j < |states + [s]| - 1 ensures StateAfter((states + [s])[j], inum, off, data, start, j) {
      assert (states + [s])[j] == states[j];
    }
  }

  lemma TrailingNext(states: seq<Fs>, fs: Fs, log0: seq<Fs>, log: seq<Fs>, base: Fs, cur: Fs, logged: set<nat>,
                     inum: nat, off: nat, data: seq<Byte>, i: nat, start: seq<Byte>, c: seq<Byte>)
    returns (states': seq<Fs>)
    requires Trailing(states, fs, log0, log, inum, off, data, start) && Last(states) == base
    requires |base.blocks| == |cur.blocks| && |Changed(base, Commit(base, cur, logged))| <= MAXOPBLOCKS
    requires Contains(base, inum, c) && Part(start, c, off, data, i, i)
    requires i == Reaching(|states| - 1, |data|) && i < |data|
    ensures Trailing(states', fs, log0, log + [Commit(base, cur, logged)], inum, off, data, start)
    ensures Last(states') == Commit(base, cur, logged)
    ensures i + PartSize(|data|, i) == Reaching(|states'| - 1, |data|)
  {
    var s := Commit(base, cur, logged);
    TrailNext(states, s, inum, off, data, start, c);
    states' := states + [s];
    ReachingNext(|states| - 1, |data|);
    assert states'[1..] == states[1..] + [s];
  }

  /** IBLOCK. */
  function InodeBlock(g: Geometry, inum: nat): (b: nat)
    ensures g.inodestart <= b && IPB * (b - g.inodestart) <= inum < IPB * (b - g.inodestart) + IPB
  {
    inum / IPB + g.inodestart
  }

  lemma Addressed(fs: Fs, owner: map<nat, Slot>, inum: nat)
    requires Partition(fs, owner, {}) && inum < |fs.inodes| && fs.inodes[inum].addrs[NDIRECT] != 0
    ensures HasIndirect(fs, inum)
  {
    assert SlotOk(fs, Indirect(inum)) && OwnsValue(fs, owner, Indirect(inum));
  }

  lemma ReachedMapped(fs: Fs, owner: map<nat, Slot>, inum: nat, a: nat)
    requires Partition(fs, owner, {}) && inum < |fs.inodes| && a < MAXBYTES && Value(fs, SlotOf(inum, a / BSIZE)) != 0
    ensures Mapped(fs, inum, a)
  {
    assert SlotOk(fs, SlotOf(inum, a / BSIZE)) && OwnsValue(fs, owner, SlotOf(inum, a / BSIZE));
  }

  lemma SizedBlock(fs: Fs, inum: nat, size: nat, p: nat)
    requires Shaped(fs) && inum < |fs.inodes|
    ensures Shaped(Sized(fs, inum, size)) && BlockAt(Sized(fs, inum, size), inum, p) == BlockAt(fs, inum, p)
  {
  }

  lemma ChangedSets(log: set<nat>, log': set<nat>, dirty: set<nat>, changed: set<nat>, i: nat, spill: set<nat>)
    requires log' == log + {i} && changed <= dirty + {i} && dirty <= log + spill
    ensures changed <= log' + spill
    ensures |log' + changed| <= |log + dirty + {i}|
  {
    SubsetSize(log' + changed, log + dirty + {i});
  }

  lemma WrittenInPlace(fs: Fs, owner: map<nat, Slot>, inum: nat, a: nat, bytes: seq<Byte>)
    requires Partition(fs, owner, {}) && Mapped(fs, inum, a) && a % BSIZE + |bytes| <= BSIZE
    ensures var fs' := Written(fs, inum, a, bytes);
            Shaped(fs') && inum < |fs'.inodes| && BlockAt(fs', inum, a) == {Value(fs, SlotOf(inum, a / BSIZE))}
  {
    MappedOwner(fs, owner, {}, inum, a);
    var b := Value(fs, SlotOf(inum, a / BSIZE));
    RewriteKeepsValues(fs, b, SpliceBlock(fs.blocks[b], a % BSIZE, bytes), SlotOf(inum, a / BSIZE));
  }

  lemma SpliceNothing(b: Block, off: nat, bytes: seq<Byte>)
    requires off + |bytes| <= BSIZE
    ensures bytes == [] ==> SpliceBlock(b, off, bytes) == b
  {
  }

  lemma TouchedMost(fs: Fs, inum: nat, bn: nat)
    requires Shaped(fs) && inum < |fs.inodes| && bn < MAXFILE
    ensures Touched(fs, inum, bn) <= Some(Value(fs, SlotOf(inum, bn))) + Some(fs.inodes[inum].addrs[NDIRECT])
    ensures bn >= NDIRECT ==>
              Touched(fs, inum, bn) == Some(Value(fs, SlotOf(inum, bn))) + Some(fs.inodes[inum].addrs[NDIRECT])
  {
  }

  /** A turn that reached block a / BSIZE in mid and then perhaps wrote to it. */
  lemma AccountStep(fs0: Fs, fs: Fs, mid: Fs, after: Fs, log0: set<nat>, log: set<nat>, log': set<nat>, inum: nat,
                    off: nat, a: nat, t: Tally, addr: nat, maps: set<nat>) returns (t': Tally)
    requires Shaped(fs0) && Shaped(fs) && inum < |fs0.inodes| == |fs.inodes| && a < MAXBYTES
    requires Shaped(after) && after.inodes == mid.inodes && |fs0.blocks| == |fs.blocks| == |after.blocks|
    requires Account(fs0, fs, log0, log, inum, off, t) && Reached(fs, mid, inum, a / BSIZE, addr)
    requires t.k == 0 ==> fs == fs0 && a == off && NoHoles(fs, inum) && off <= fs.inodes[inum].size
    requires log <= log' <= log + Touched(mid, inum, a / BSIZE) + maps
    requires |maps| <= Allocated(fs, mid, inum, a / BSIZE)
    requires Dirty(fs.blocks, after.blocks) <= Touched(mid, inum, a / BSIZE) + maps
    ensures Account(fs0, after, log0, log', inum, off, t') && t'.k == t.k + 1
  {
    var n := if Value(fs, SlotOf(inum, a / BSIZE)) == 0 && addr != 0 then 1 else 0;
    if t.k == 0 && off % BSIZE != 0 {
      FirstBlockThere(fs, inum, off);
    }
    DirtyTrans(fs0.blocks, fs.blocks, after.blocks);
    TouchedMost(mid, inum, a / BSIZE);
    t' := Tally(t.data + Some(addr), t.maps + maps, t.k + 1, t.added + n);
    var dirty, dirty' := Dirty(fs0.blocks, fs.blocks), Dirty(fs0.blocks, after.blocks);
    TurnSets(log, log', dirty, dirty', Dirty(fs.blocks, after.blocks), Touched(mid, inum, a / BSIZE), maps, Some(addr),
             Some(mid.inodes[inum].addrs[NDIRECT]));
    BudgetStep(log0, log + dirty, log' + dirty', fs0.inodes[inum].addrs[NDIRECT], fs.inodes[inum].addrs[NDIRECT],
               mid.inodes[inum].addrs[NDIRECT], t.data, t.maps, t.k, t.added, addr, maps, n);
  }

  /** Part way through a write: the first `got` bytes are in place and the log is within budget. */
  ghost predicate Writing(fs0: Fs, fs: Fs, owner: map<nat, Slot>, log0: set<nat>, log: set<nat>, inum: nat, off: nat,
                          data: seq<Byte>, got: nat, t: Tally) {
    && Shaped(fs0) && inum < |fs0.inodes| && got <= |data|
    && Partition(fs, owner, {}) && Wrote(fs0, fs, inum, off, data[..got])
    && Account(fs0, fs, log0, log, inum, off, t)
  }

  lemma WritingStart(fs: Fs, owner: map<nat, Slot>, log: set<nat>, inum: nat, off: nat, data: seq<Byte>)
    requires Partition(fs, owner, {}) && inum < |fs.inodes|
    ensures Writing(fs, fs, owner, log, log, inum, off, data, 0, Tally({}, {}, 0, 0))
  {
    WroteNothing(fs, inum, off);
    assert data[..0] == [];
  }

  lemma WroteTurn(fs0: Fs, fs: Fs, mid: Fs, after: Fs, owner: map<nat, Slot>, inum: nat, off: nat, data: seq<Byte>,
                  tot: nat, copied: nat, addr: nat)
    requires tot + copied <= |data| && off + tot < MAXBYTES && (off + tot) % BSIZE + copied <= BSIZE
    requires Shaped(fs) && inum < |fs.inodes| && Wrote(fs0, fs, inum, off, data[..tot])
    requires Partition(mid, owner, {}) && Reached(fs, mid, inum, (off + tot) / BSIZE, addr)
    requires addr == 0 ==> after == mid
    requires addr != 0 ==>
             Mapped(mid, inum, off + tot) && after == Written(mid, inum, off + tot, data[tot..tot + copied])
    ensures Partition(after, owner, {}) && after.inodes == mid.inodes && after.g == fs.g
    ensures Wrote(fs0, after, inum, off, data[..if addr == 0 then tot else tot + copied])
  {
    WroteExtends(fs0, fs, mid, inum, off, data[..tot]);
    if addr != 0 {
      WroteMore(fs0, mid, owner, inum, off, data[..tot], data[tot..tot + copied]);
      WrittenKeeps(mid, owner, inum, off + tot, data[tot..tot + copied]);
      assert data[..tot] + data[tot..tot + copied] == data[..tot + copied];
    }
  }

  lemma WritingTurn(fs0: Fs, fs: Fs, mid: Fs, after: Fs, owner: map<nat, Slot>, log0: set<nat>, log: set<nat>,
                    log': set<nat>, inum: nat, off: nat, data: seq<Byte>, tot: nat, copied: nat, t: Tally, addr: nat,
                    maps: set<nat>) returns (t': Tally)
    requires Shaped(fs0) && inum < |fs0.inodes| && tot + copied <= |data| && off + tot < MAXBYTES
    requires (off + tot) % BSIZE + copied <= BSIZE
    requires Shaped(fs) && Wrote(fs0, fs, inum, off, data[..tot]) && Account(fs0, fs, log0, log, inum, off, t)
    requires Partition(mid, owner, {}) && Reached(fs, mid, inum, (off + tot) / BSIZE, addr)
    requires t.k == 0 ==> fs == fs0 && tot == 0 && NoHoles(fs, inum) && off <= fs.inodes[inum].size
    requires log <= log' <= log + Touched(mid, inum, (off + tot) / BSIZE) + maps
    requires |maps| <= Allocated(fs, mid, inum, (off + tot) / BSIZE)
    requires Dirty(fs.blocks, after.blocks) <= Touched(mid, inum, (off + tot) / BSIZE) + maps
    requires addr == 0 ==> after == mid
    requires addr != 0 ==>
             Mapped(mid, inum, off + tot) && after == Written(mid, inum, off + tot, data[tot..tot + copied])
    ensures Writing(fs0, after, owner, log0, log', inum, off, data, if addr == 0 then tot else tot + copied, t')
    ensures t'.k == t.k + 1
  {
    WroteTurn(fs0, fs, mid, after, owner, inum, off, data, tot, copied, addr);
    t' := AccountStep(fs0, fs, mid, after, log0, log, log', inum, off, off + tot, t, addr, maps);
  }

  lemma Finished(fs0: Fs, fs: Fs, owner: map<nat, Slot>, log0: set<nat>, log: set<nat>, inum: nat, off: nat,
                 data: seq<Byte>, tot: nat, got: nat, t: Tally)
    requires Writing(fs0, fs, owner, log0, log, inum, off, data, got, t) && NoHoles(fs0, inum)
    requires off <= fs0.inodes[inum].size && tot <= got && off + |data| <= MAXBYTES && Started(off, |data|, t.k)
    ensures var fs' := Sized(fs, inum, Grown(fs0.inodes[inum].size, off, tot));
            && Partition(fs', owner, {}) && Spares(fs0, fs', inum)
            && (NoRoom(fs, inum, off + tot) ==> NoRoom(fs', inum, off + tot))
            && NoHoles(fs', inum) && Outcome(Content(fs0, inum), Content(fs', inum), off, data[..got], tot)
    ensures |data| <= MAXWRITE ==>
              |log + Dirty(fs0.blocks, fs.blocks) + {InodeBlock(fs.g, inum)}| <= |log0| + MAXOPBLOCKS
  {
    var size := Grown(fs0.inodes[inum].size, off, tot);
    var fs' := Sized(fs, inum, size);
    SizedKeeps(fs, owner, inum, size);
    WroteSpares(fs0, fs, inum, off, data[..got], size);
    FileWritten(fs0, fs, inum, off, data[..got], tot);
    if NoRoom(fs, inum, off + tot) {
      SizedRoom(fs, inum, size, off + tot);
    }
    if |data| <= MAXWRITE {
      SmallSpan(off, |data|, t.k, t.added);
      BudgetTotal(log0, log + Dirty(fs0.blocks, fs.blocks), fs0.inodes[inum].addrs[NDIRECT],
                  fs.inodes[inum].addrs[NDIRECT], t.data, t.maps, t.k, t.added, InodeBlock(fs.g, inum));
    }
  }

  /** What a writei of `piece` at pos did to contents c. */
  ghost predicate Pieced(fs: Fs, inum: nat, c: seq<Byte>, c': seq<Byte>, pos: nat, piece: seq<Byte>, fault: nat,
                         r: int, got: nat) {
    && -1 <= r <= fault
    && (if r == -1 then c' == c && (pos > |c| || pos + |piece| > MAXBYTES)
        else r <= got <= |piece| && pos + |piece| <= MAXBYTES && Outcome(c, c', pos, piece[..got], r))
    && (0 <= r < |piece| ==> Stopped(fs, inum, pos, r, |piece|, fault))
  }

  lemma ChunkWritten(fs: Fs, inum: nat, off: nat, data: seq<Byte>, i: nat, n1: nat, piece: seq<Byte>, f: nat, pos: nat,
                     pos': nat, fault: nat, start: seq<Byte>, c: seq<Byte>, c': seq<Byte>, r: int, got: nat)
    returns (w: nat)
    requires i < |data| && i <= fault && Part(start, c, off, data, i, i) && pos == off + i
    requires n1 == PartSize(|data|, i) && piece == data[i..i + n1] && f == Clamp(fault, i, n1)
    requires Pieced(fs, inum, c, c', pos, piece, f, r, got) && pos' == if r > 0 then pos + r else pos
    ensures r <= n1 && off <= pos' <= off + w && Part(start, c', off, data, w, pos' - off)
    ensures r == n1 ==> w == i + n1 <= fault && pos' == off + w <= MAXBYTES
    ensures r < n1 ==> Halted(fs, inum, off, pos' - off, |data|, fault, |start|)
    ensures pos' == off + w ==> r == -1 || got == r
  {
    w := if r == -1 then i else i + got;
    PartNext(start, c, c', off, data, i, n1, got, r);
    ChunkHalts(fs, inum, off, pos', data, i, n1, fault, start, c, r);
  }

  /** Why a transaction of filewrite stops is why filewrite does. */
  lemma ChunkHalts(fs: Fs, inum: nat, off: nat, pos: nat, data: seq<Byte>, i: nat, n1: nat, fault: nat,
                   start: seq<Byte>, c: seq<Byte>, r: int)
    requires i < |data| && n1 == PartSize(|data|, i) && i <= fault && Part(start, c, off, data, i, i)
    requires r >= -1 && pos == off + i + if r > 0 then r else 0
    requires r == -1 ==> off + i > |c| || off + i + n1 > MAXBYTES
    requires 0 <= r < n1 ==> Stopped(fs, inum, off + i, r, n1, Clamp(fault, i, n1))
    ensures r < n1 ==> Halted(fs, inum, off, pos - off, |data|, fault, |start|)
  {
    assert off <= |start| ==> |c| == Grown(|start|, off, i);
    if r == -1 {
      assert off + i + n1 > MAXBYTES ==> off + |data| > MAXBYTES;
    }
  }

  lemma SizedRoom(fs: Fs, inum: nat, size: nat, p: nat)
    requires NoRoom(fs, inum, p)
    ensures NoRoom(Sized(fs, inum, size), inum, p)
  {
    var fs' := Sized(fs, inum, size);
    forall b | 0 <= b < fs.g.size ensures Used(fs', b) {
      assert Used(fs, b);
    }
    assert Value(fs', SlotOf(inum, p / BSIZE)) == Value(fs, SlotOf(inum, p / BSIZE));
  }

  /** writei's test in 32-bit arithmetic. */
  lemma RangeTest(off: nat, n: nat)
    requires n < WORD
    ensures off <= MAXBYTES ==>
              ((off + n) % WORD < off || (off + n) % WORD > MAXBYTES <==> off + n > MAXBYTES)
  {
  }

  /** A position in the whole data as a position in the n bytes from i. */
  function Clamp(x: nat, i: nat, n: nat): (y: nat)
    ensures y <= n && (y == n ==> n == 0 || x >= i + n)
  {
    if x < i then 0 else if x - i > n then n else x - i
  }

  lemma SliceJoin(c: seq<Byte>, i: nat, j: nat, k: nat)
    requires i <= j <= k <= |c|
    ensures c[i..j] + c[j..k] == c[i..k]
  {
  }
}
