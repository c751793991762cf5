/** Truncating a file: each of its blocks, and no other, goes back to the free map. */
module FsTrunc {
  import opened FsDisk
  import opened FsState
  import opened FsSlots
  import opened FsContent
  import opened FsGrow

  /** Block b is in ow just as in ow0, unless ow0 has it in a direct slot of the file below i. */
  ghost predicate Left(ow0: map<nat, Slot>, ow: map<nat, Slot>, inum: nat, i: nat, b: nat) {
    && (b in ow <==> b in ow0 && !(ow0[b].Direct? && ow0[b].inum == inum && ow0[b].i < i))
    && (b in ow ==> ow[b] == ow0[b])
  }

  /** ow is what is left of the owners ow0 when direct slots 0..i of a file are gone. */
  ghost predicate Dropped(ow0: map<nat, Slot>, ow: map<nat, Slot>, inum: nat, i: nat) {
    forall b: nat {:trigger Left(ow0, ow, inum, i, b)} :: Left(ow0, ow, inum, i, b)
  }

  /** The owners left when a file has lost every block. */
  ghost function Without(owner: map<nat, Slot>, inum: nat): map<nat, Slot> {
    map b | b in owner && owner[b].inum != inum :: owner[b]
  }

  /** The indirect block of a file and its entries from j on. */
  ghost function Remaining(owner: map<nat, Slot>, inum: nat, j: nat): set<nat> {
    set b | b in owner && (owner[b] == Indirect(inum) || (owner[b].Entry? && owner[b].inum == inum && owner[b].j >= j))
  }

  /** Only free-map blocks have been rewritten. */
  ghost predicate OnlyMap(fs: Fs, fs': Fs) {
    && fs'.g == fs.g && |fs'.blocks| == |fs.blocks|
    && forall c :: 0 <= c < |fs.blocks| && !IsMapBlock(fs.g, c) ==> fs'.blocks[c] == fs.blocks[c]
  }

  lemma OnlyMapFree(fs: Fs, fs': Fs, b: nat)
    requires Shaped(fs') && OnlyMap(fs, fs') && b < fs'.g.size && Used(fs', b)
    ensures OnlyMap(fs, WithUnused(fs', b))
  {
    MapBlockInRange(fs.g, b);
  }

  /** bfree and then clearing the address, as one step on the partition. */
  lemma FreeDirect(fs: Fs, owner: map<nat, Slot>, inum: nat, i: nat)
    requires Partition(fs, owner, {}) && inum < |fs.inodes| && i < NDIRECT && fs.inodes[inum].addrs[i] != 0
    ensures var b := fs.inodes[inum].addrs[i];
            && b < fs.g.size && Used(fs, b) && b in owner && owner[b] == Direct(inum, i)
            && Partition(WithAddr(WithUnused(fs, b), inum, i, 0), owner - {b}, {})
  {
    var b := fs.inodes[inum].addrs[i];
    assert SlotOk(fs, Direct(inum, i)) && OwnsValue(fs, owner, Direct(inum, i));
    assert Used(fs, b);
    DetachDirect(fs, owner, {}, inum, i);
    assert {} + {b} == {b} && {b} - {b} == {};
    FreeKeeps(WithAddr(fs, inum, i, 0), owner - {b}, {b}, b);
    assert WithAddr(WithUnused(fs, b), inum, i, 0) == WithUnused(WithAddr(fs, inum, i, 0), b);
  }

  lemma DropNext(fs: Fs, ow0: map<nat, Slot>, ow: map<nat, Slot>, inum: nat, i: nat)
    requires Partition(fs, ow, {}) && inum < |fs.inodes| && i < NDIRECT && Dropped(ow0, ow, inum, i)
    ensures var b := fs.inodes[inum].addrs[i];
            Dropped(ow0, if b == 0 then ow else ow - {b}, inum, i + 1)
  {
    var a := fs.inodes[inum].addrs[i];
    var ow' := if a == 0 then ow else ow - {a};
    assert SlotOk(fs, Direct(inum, i)) && OwnsValue(fs, ow, Direct(inum, i));
    var next := i + 1;
    forall b: nat ensures Left(ow0, ow', inum, next, b) {
      assert Left(ow0, ow, inum, i, b);
    }
  }

  /** One entry of the indirect block, with the indirect block already out of the inode. */
  lemma FreeEntry(fs: Fs, owner: map<nat, Slot>, held: set<nat>, inum: nat, b: nat)
    requires Shaped(fs) && inum < |fs.inodes| && b in held
    requires Partition(WithAddr(fs, inum, NDIRECT, 0), owner, held)
    ensures b < fs.g.size && Used(fs, b)
    ensures Partition(WithAddr(WithUnused(fs, b), inum, NDIRECT, 0), owner, held - {b})
  {
    var cut := WithAddr(fs, inum, NDIRECT, 0);
    FreeKeeps(cut, owner, held, b);
    assert Used(cut, b) == Used(fs, b);
    assert WithAddr(WithUnused(fs, b), inum, NDIRECT, 0) == WithUnused(cut, b);
  }

  lemma RemainingAll(owner: map<nat, Slot>, inum: nat)
    ensures Remaining(owner, inum, 0) == IndirectBlocks(owner, inum)
  {
  }

  lemma RemainingNext(fs: Fs, owner: map<nat, Slot>, inum: nat, j: nat)
    requires Partition(fs, owner, {}) && HasIndirect(fs, inum) && j < NINDIRECT
    ensures var b := Word(fs.blocks[fs.inodes[inum].addrs[NDIRECT]], j);
            && (b == 0 ==> Remaining(owner, inum, j + 1) == Remaining(owner, inum, j))
            && (b != 0 ==> b in Remaining(owner, inum, j)
                           && Remaining(owner, inum, j + 1) == Remaining(owner, inum, j) - {b})
  {
    assert SlotOk(fs, Entry(inum, j)) && OwnsValue(fs, owner, Entry(inum, j));
    forall b | b in owner && owner[b] == Entry(inum, j) ensures b == Value(fs, Entry(inum, j)) != 0 {
    }
  }

  lemma RemainingLast(fs: Fs, owner: map<nat, Slot>, inum: nat)
    requires Partition(fs, owner, {}) && HasIndirect(fs, inum)
    ensures Remaining(owner, inum, NINDIRECT) == {fs.inodes[inum].addrs[NDIRECT]}
  {
    var ind := fs.inodes[inum].addrs[NDIRECT];
    assert SlotOk(fs, Indirect(inum)) && OwnsValue(fs, owner, Indirect(inum));
    forall b | b in Remaining(owner, inum, NINDIRECT) ensures b == ind {
      assert SlotOk(fs, owner[b]) && Value(fs, owner[b]) == b;
    }
  }

  /** A file without an indirect block has no entries either. */
  lemma NoEntries(fs: Fs, owner: map<nat, Slot>, inum: nat)
    requires Partition(fs, owner, {}) && inum < |fs.inodes| && fs.inodes[inum].addrs[NDIRECT] == 0
    ensures IndirectBlocks(owner, inum) == {}
  {
    forall b | b in owner ensures !Indirectly(owner[b], inum) {
      assert SlotOk(fs, owner[b]) && Value(fs, owner[b]) == b;
    }
  }

  lemma DroppedAll(fs: Fs, ow0: map<nat, Slot>, ow: map<nat, Slot>, inum: nat)
    requires Partition(fs, ow0, {}) && inum < |fs.inodes| && Dropped(ow0, ow, inum, NDIRECT)
    ensures ow - IndirectBlocks(ow, inum) == Without(ow0, inum)
  {
    var rest := ow - IndirectBlocks(ow, inum);
    forall b: nat ensures b in rest <==> b in Without(ow0, inum) {
      assert Left(ow0, ow, inum, NDIRECT, b);
      if b in ow0 {
        assert SlotOk(fs, ow0[b]);
      }
    }
    forall b | b in rest ensures rest[b] == Without(ow0, inum)[b] {
      assert Left(ow0, ow, inum, NDIRECT, b);
    }
  }

  /** Rewriting only the free map and one inode changes no byte of another file. */
  lemma OthersKept(fs: Fs, owner: map<nat, Slot>, fs': Fs, inum: nat, k: nat, p: nat)
    requires Partition(fs, owner, {}) && Shaped(fs') && OnlyMap(fs, fs') && |fs'.inodes| == |fs.inodes|
    requires k != inum && k < |fs.inodes| && fs'.inodes[k] == fs.inodes[k]
    ensures Kept(fs, fs', k, p)
  {
    if Mapped(fs, k, p) {
      MappedOwner(fs, owner, {}, k, p);
      assert SlotOk(fs, Indirect(k)) && OwnsValue(fs, owner, Indirect(k));
    }
  }

  /** Direct slots 0..i of a file have been freed; nothing else has changed. */
  ghost predicate Trimming(fs0: Fs, ow0: map<nat, Slot>, fs: Fs, ow: map<nat, Slot>, inum: nat, i: nat) {
    && Partition(fs, ow, {}) && Dropped(ow0, ow, inum, i) && OnlyMap(fs0, fs)
    && |fs.inodes| == |fs0.inodes| && inum < |fs.inodes| && i <= NDIRECT
    && (forall k :: 0 <= k < |fs.inodes| && k != inum ==> fs.inodes[k] == fs0.inodes[k])
    && (forall j :: 0 <= j < i ==> fs.inodes[inum].addrs[j] == 0)
  }

  lemma TrimmingStart(fs: Fs, owner: map<nat, Slot>, inum: nat)
    requires Partition(fs, owner, {}) && inum < |fs.inodes|
    ensures Trimming(fs, owner, fs, owner, inum, 0)
  {
  }

  lemma TrimmingNext(fs0: Fs, ow0: map<nat, Slot>, fs: Fs, ow: map<nat, Slot>, inum: nat, i: nat)
    requires Trimming(fs0, ow0, fs, ow, inum, i) && i < NDIRECT
    ensures var b := fs.inodes[inum].addrs[i];
            && (b == 0 ==> Trimming(fs0, ow0, fs, ow, inum, i + 1))
            && (b != 0 ==> b < fs.g.size && Used(fs, b)
                           && Trimming(fs0, ow0, WithAddr(WithUnused(fs, b), inum, i, 0), ow - {b}, inum, i + 1))
  {
    var b := fs.inodes[inum].addrs[i];
    DropNext(fs, ow0, ow, inum, i);
    if b != 0 {
      FreeDirect(fs, ow, inum, i);
      OnlyMapFree(fs0, fs, b);
    }
  }

  /** The file's indirect block, still in the inode, and its entries from j on are the
      blocks left to free. */
  ghost predicate Emptying(fs0: Fs, ow0: map<nat, Slot>, fs: Fs, inum: nat, j: nat) {
    && Shaped(fs) && fs.inodes == fs0.inodes && OnlyMap(fs0, fs) && inum < |fs.inodes|
    && Partition(WithAddr(fs, inum, NDIRECT, 0), ow0 - IndirectBlocks(ow0, inum), Remaining(ow0, inum, j))
  }

  lemma EmptyingStart(fs: Fs, owner: map<nat, Slot>, inum: nat)
    requires Partition(fs, owner, {}) && inum < |fs.inodes|
    ensures Emptying(fs, owner, fs, inum, 0)
  {
    DetachIndirect(fs, owner, {}, inum);
    RemainingAll(owner, inum);
    assert {} + IndirectBlocks(owner, inum) == IndirectBlocks(owner, inum);
  }

  lemma EmptyingNext(fs0: Fs, ow0: map<nat, Slot>, fs: Fs, inum: nat, j: nat)
    requires Partition(fs0, ow0, {}) && HasIndirect(fs0, inum) && Emptying(fs0, ow0, fs, inum, j) && j < NINDIRECT
    ensures var b := Word(fs.blocks[fs.inodes[inum].addrs[NDIRECT]], j);
            && (b == 0 ==> Emptying(fs0, ow0, fs, inum, j + 1))
            && (b != 0 ==> b < fs.g.size && Used(fs, b) && Emptying(fs0, ow0, WithUnused(fs, b), inum, j + 1))
  {
    var ind := fs.inodes[inum].addrs[NDIRECT];
    assert SlotOk(fs0, Indirect(inum)) && OwnsValue(fs0, ow0, Indirect(inum));
    assert fs.blocks[ind] == fs0.blocks[ind];
    var b := Word(fs.blocks[ind], j);
    RemainingNext(fs0, ow0, inum, j);
    if b != 0 {
      FreeEntry(fs, ow0 - IndirectBlocks(ow0, inum), Remaining(ow0, inum, j), inum, b);
      OnlyMapFree(fs0, fs, b);
    }
  }

  lemma EmptyingEnd(fs0: Fs, ow0: map<nat, Slot>, fs: Fs, inum: nat)
    requires Partition(fs0, ow0, {}) && HasIndirect(fs0, inum) && Emptying(fs0, ow0, fs, inum, NINDIRECT)
    ensures var ind := fs.inodes[inum].addrs[NDIRECT];
            && Used(fs, ind) && OnlyMap(fs0, WithUnused(fs, ind))
            && Partition(WithAddr(WithUnused(fs, ind), inum, NDIRECT, 0), ow0 - IndirectBlocks(ow0, inum), {})
  {
    var ind := fs.inodes[inum].addrs[NDIRECT];
    RemainingLast(fs0, ow0, inum);
    FreeEntry(fs, ow0 - IndirectBlocks(ow0, inum), {ind}, inum, ind);
    OnlyMapFree(fs0, fs, ind);
    assert {ind} - {ind} == {};
  }

  predicate NoAddresses(i: Inode) {
    |i.addrs| == NDIRECT + 1 && forall j :: 0 <= j <= NDIRECT ==> i.addrs[j] == 0
  }

  /** Truncating a file leaves the others as they were. */
  lemma TruncatedSpares(fs: Fs, owner: map<nat, Slot>, fs': Fs, inum: nat)
    requires Partition(fs, owner, {}) && inum < |fs.inodes| == |fs'.inodes| && OnlyMap(fs, fs') && Shaped(fs')
    requires forall k :: 0 <= k < |fs.inodes| && k != inum ==> fs'.inodes[k] == fs.inodes[k]
    ensures Spares(fs, fs', inum)
  {
    forall k: nat, p: nat | k != inum ensures Kept(fs, fs', k, p) {
      if k < |fs.inodes| {
        OthersKept(fs, owner, fs', inum, k, p);
      }
    }
  }

  /** The blocks a truncation frees are exactly the file's own. */
  lemma TruncatedFrees(fs: Fs, owner: map<nat, Slot>, fs': Fs, inum: nat, b: nat)
    requires Partition(fs, owner, {}) && Partition(fs', Without(owner, inum), {}) && fs'.g == fs.g && b < fs.g.size
    ensures Used(fs', b) <==> Used(fs, b) && !(b in owner && owner[b].inum == inum)
  {
  }
}
