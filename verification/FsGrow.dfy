/** Growing a file: taking a free block and storing it in an empty slot changes no byte of
    any file. */
module FsGrow {
  import opened FsDisk
  import opened FsState
  import opened FsSlots
  import opened FsContent

  /** fs' keeps every allocated position of every file, and every file's size. */
  ghost predicate Extends(fs: Fs, fs': Fs) {
    && fs'.g == fs.g && |fs'.inodes| == |fs.inodes|
    && (forall k :: 0 <= k < |fs.inodes| ==> fs'.inodes[k].size == fs.inodes[k].size)
    && (forall k: nat, p: nat :: Kept(fs, fs', k, p))
  }

  /** Position p of file k, if allocated, has the same byte in both. */
  ghost predicate Kept(fs: Fs, fs': Fs, k: nat, p: nat) {
    Mapped(fs, k, p) ==> Holds(fs', k, p, ByteAt(fs, k, p))
  }

  lemma ExtendsTrans(fs: Fs, fs1: Fs, fs2: Fs)
    requires Extends(fs, fs1) && Extends(fs1, fs2)
    ensures Extends(fs, fs2)
  {
    forall k: nat, p: nat ensures Kept(fs, fs2, k, p) {
      assert Kept(fs, fs1, k, p) && Kept(fs1, fs2, k, p);
    }
  }

  lemma ExtendsSelf(fs: Fs)
    ensures Extends(fs, fs)
  {
  }

  /** Every file but inum has its size and every allocated byte as before. */
  ghost predicate Spares(fs: Fs, fs': Fs, inum: nat) {
    && |fs'.inodes| == |fs.inodes|
    && (forall k :: 0 <= k < |fs.inodes| && k != inum ==> fs'.inodes[k].size == fs.inodes[k].size)
    && (forall k: nat, p: nat :: k != inum ==> Kept(fs, fs', k, p))
  }

  lemma SparesTrans(fs: Fs, fs1: Fs, fs2: Fs, inum: nat)
    requires Spares(fs, fs1, inum) && Spares(fs1, fs2, inum)
    ensures Spares(fs, fs2, inum)
  {
    forall k: nat, p: nat | k != inum ensures Kept(fs, fs2, k, p) {
      assert Kept(fs, fs1, k, p) && Kept(fs1, fs2, k, p);
    }
  }

  lemma SparesSelf(fs: Fs, inum: nat)
    ensures Spares(fs, fs, inum)
  {
  }

  /** The other files without holes have the contents they had. */
  lemma SparesFile(fs: Fs, fs': Fs, inum: nat, k: nat)
    requires Shaped(fs) && Shaped(fs') && Spares(fs, fs', inum) && k < |fs.inodes| && k != inum && NoHoles(fs, k)
    ensures NoHoles(fs', k) && Content(fs', k) == Content(fs, k)
  {
    forall p | 0 <= p < fs.inodes[k].size ensures Mapped(fs', k, p) && ByteAt(fs', k, p) == Content(fs, k)[p] {
      assert Mapped(fs, k, p) && Kept(fs, fs', k, p);
    }
  }

  /** The disk after block b has been marked in use and zeroed. */
  function Zeroed(fs: Fs, b: nat): (r: Fs)
    requires Shaped(fs) && b < fs.g.size && !Used(fs, b)
    ensures Shaped(r) && r.inodes == fs.inodes && r.g == fs.g
  {
    var fs1 := WithUsed(fs, b);
    fs1.(blocks := fs1.blocks[b := Zeros()])
  }

  lemma WithUsedValues(fs: Fs, owner: map<nat, Slot>, b: nat, s: Slot)
    requires Partition(fs, owner, {}) && b < fs.g.size && !Used(fs, b) && SlotOk(fs, s)
    ensures Shaped(WithUsed(fs, b)) && SlotOk(WithUsed(fs, b), s) && Value(WithUsed(fs, b), s) == Value(fs, s)
  {
    MapBlockInRange(fs.g, b);
    MetadataHarmless(fs, owner, MapBlock(fs.g, b));
    RewriteKeepsValues(fs, MapBlock(fs.g, b), WithUsed(fs, b).blocks[MapBlock(fs.g, b)], s);
  }

  /** Allocating keeps every slot. */
  lemma ZeroedValues(fs: Fs, owner: map<nat, Slot>, b: nat, s: Slot)
    requires Partition(fs, owner, {}) && b < fs.g.size && !Used(fs, b) && SlotOk(fs, s)
    ensures Shaped(Zeroed(fs, b)) && SlotOk(Zeroed(fs, b), s) && Value(Zeroed(fs, b), s) == Value(fs, s)
  {
    AllocKeeps(fs, owner, {}, b);
    WithUsedValues(fs, owner, b, s);
    var fs1 := WithUsed(fs, b);
    MetadataHarmless(fs1, owner, b);
    RewriteKeepsValues(fs1, b, Zeros(), s);
  }

  lemma ZeroedKeeps(fs: Fs, owner: map<nat, Slot>, b: nat)
    requires Partition(fs, owner, {}) && b < fs.g.size && !Used(fs, b)
    ensures b >= fs.g.datastart && b !in owner
    ensures Partition(Zeroed(fs, b), owner, {b})
    ensures EmptyTable(Zeroed(fs, b).blocks[b])
  {
    AllocKeeps(fs, owner, {}, b);
    var fs1 := WithUsed(fs, b);
    assert {} + {b} == {b};
    MetadataHarmless(fs1, owner, b);
    RewriteKeeps(fs1, owner, {b}, b, Zeros());
    ZeroTable();
  }

  lemma ZeroedByte(fs: Fs, owner: map<nat, Slot>, b: nat, k: nat, p: nat)
    requires Partition(fs, owner, {}) && b < fs.g.size && !Used(fs, b) && Mapped(fs, k, p)
    ensures Kept(fs, Zeroed(fs, b), k, p)
  {
    AllocKeeps(fs, owner, {}, b);
    MapBlockInRange(fs.g, b);
    MappedOwner(fs, owner, {}, k, p);
    ZeroedValues(fs, owner, b, SlotOf(k, p / BSIZE));
  }

  lemma ZeroedExtends(fs: Fs, owner: map<nat, Slot>, b: nat)
    requires Partition(fs, owner, {}) && b < fs.g.size && !Used(fs, b)
    ensures Extends(fs, Zeroed(fs, b))
  {
    forall k: nat, p: nat | Mapped(fs, k, p) ensures Kept(fs, Zeroed(fs, b), k, p) {
      ZeroedByte(fs, owner, b, k, p);
    }
  }

  lemma StoredByte(fs: Fs, owner: map<nat, Slot>, fs': Fs, s: Slot, b: nat, x: nat, k: nat, p: nat)
    requires Partition(fs, owner, {b}) && Stored(fs, fs', s, b) && Mapped(fs, k, p)
    requires x == 0 || (x in owner && owner[x].Indirect?)
    requires SameBlocks(fs, fs', x)
    ensures Kept(fs, fs', k, p)
  {
    MappedOwner(fs, owner, {b}, k, p);
    assert SlotOk(fs', SlotOf(k, p / BSIZE));
    assert SameBlock(fs, fs', Value(fs, SlotOf(k, p / BSIZE)));
  }

  predicate SameBlock(fs: Fs, fs': Fs, c: nat) {
    c < |fs.blocks| && c < |fs'.blocks| && fs'.blocks[c] == fs.blocks[c]
  }

  /** The data area is the same but for block x. */
  ghost predicate SameBlocks(fs: Fs, fs': Fs, x: nat) {
    forall c: nat {:trigger SameBlock(fs, fs', c)} :: fs.g.datastart <= c < fs.g.size && c != x ==>
      SameBlock(fs, fs', c)
  }

  /** Filling an empty slot keeps every file's bytes, if it rewrites at most a block that
      holds no file data. */
  lemma StoredExtends(fs: Fs, owner: map<nat, Slot>, fs': Fs, s: Slot, b: nat, x: nat)
    requires Partition(fs, owner, {b}) && Stored(fs, fs', s, b)
    requires x == 0 || (x in owner && owner[x].Indirect?)
    requires SameBlocks(fs, fs', x)
    requires forall k :: 0 <= k < |fs.inodes| ==> fs'.inodes[k].size == fs.inodes[k].size
    ensures Extends(fs, fs')
  {
    forall k: nat, p: nat | Mapped(fs, k, p) ensures Kept(fs, fs', k, p) {
      StoredByte(fs, owner, fs', s, b, x, k, p);
    }
  }

  /** The state after a fresh block has gone into a slot. */
  ghost predicate Filled(fs: Fs, owner: map<nat, Slot>, fs': Fs, s: Slot, b: nat) {
    && Partition(fs', owner[b := s], {}) && Extends(fs, fs')
    && SlotOk(fs', s) && Value(fs', s) == b
    && fs'.blocks[b] == Zeros()
  }

  lemma FillFrom(fs: Fs, fs1: Fs, owner: map<nat, Slot>, fs': Fs, s: Slot, b: nat, x: nat)
    requires Partition(fs1, owner, {b}) && Extends(fs, fs1) && fs1.blocks[b] == Zeros()
    requires Stored(fs1, fs', s, b) && SameBlocks(fs1, fs', x)
    requires x == 0 || (x in owner && owner[x].Indirect?)
    requires forall k :: 0 <= k < |fs1.inodes| ==> fs'.inodes[k].size == fs1.inodes[k].size
    ensures Filled(fs, owner, fs', s, b)
  {
    assert Extends(fs, fs') by {
      StoredExtends(fs1, owner, fs', s, b, x);
      ExtendsTrans(fs, fs1, fs');
    }
    assert Partition(fs', owner[b := s], {}) by {
      StoredKeeps(fs1, fs', owner, {b}, s, b);
      assert {b} - {b} == {};
    }
    assert SlotOk(fs', s) && SameBlock(fs1, fs', b);
  }

  lemma Fill(fs: Fs, owner: map<nat, Slot>, fs': Fs, s: Slot, b: nat, x: nat)
    requires Partition(fs, owner, {}) && b < fs.g.size && !Used(fs, b)
    requires Stored(Zeroed(fs, b), fs', s, b) && SameBlocks(Zeroed(fs, b), fs', x)
    requires x == 0 || (x in owner && owner[x].Indirect?)
    requires forall k :: 0 <= k < |fs.inodes| ==> fs'.inodes[k].size == fs.inodes[k].size
    ensures Filled(fs, owner, fs', s, b)
  {
    ZeroedKeeps(fs, owner, b);
    ZeroedExtends(fs, owner, b);
    FillFrom(fs, Zeroed(fs, b), owner, fs', s, b, x);
  }

  lemma FillDirect(fs: Fs, owner: map<nat, Slot>, inum: nat, i: nat, b: nat)
    requires Partition(fs, owner, {}) && b < fs.g.size && !Used(fs, b)
    requires inum < |fs.inodes| && i < NDIRECT && fs.inodes[inum].addrs[i] == 0
    ensures Filled(fs, owner, WithAddr(Zeroed(fs, b), inum, i, b), Direct(inum, i), b)
  {
    StoreDirect(Zeroed(fs, b), inum, i, b);
    Fill(fs, owner, WithAddr(Zeroed(fs, b), inum, i, b), Direct(inum, i), b, 0);
  }

  lemma FillIndirect(fs: Fs, owner: map<nat, Slot>, inum: nat, b: nat)
    requires Partition(fs, owner, {}) && b < fs.g.size && !Used(fs, b)
    requires inum < |fs.inodes| && fs.inodes[inum].addrs[NDIRECT] == 0
    ensures Filled(fs, owner, WithAddr(Zeroed(fs, b), inum, NDIRECT, b), Indirect(inum), b)
  {
    ZeroedKeeps(fs, owner, b);
    StoreIndirect(Zeroed(fs, b), inum, b);
    Fill(fs, owner, WithAddr(Zeroed(fs, b), inum, NDIRECT, b), Indirect(inum), b, 0);
  }

  lemma FillEntry(fs: Fs, owner: map<nat, Slot>, inum: nat, j: nat, b: nat)
    requires Partition(fs, owner, {}) && b < fs.g.size && !Used(fs, b)
    requires HasIndirect(fs, inum) && j < NINDIRECT && Value(fs, Entry(inum, j)) == 0
    ensures Filled(fs, owner, WithEntry(Zeroed(fs, b), inum, j, b), Entry(inum, j), b)
  {
    ZeroedKeeps(fs, owner, b);
    ZeroedValues(fs, owner, b, Entry(inum, j));
    assert SlotOk(fs, Indirect(inum)) && OwnsValue(fs, owner, Indirect(inum));
    StoreEntry(Zeroed(fs, b), owner, inum, j, b);
    Fill(fs, owner, WithEntry(Zeroed(fs, b), inum, j, b), Entry(inum, j), b, fs.inodes[inum].addrs[NDIRECT]);
  }

  /** The right slot of a fresh indirect block is empty. */
  lemma FreshEntry(fs: Fs, inum: nat, j: nat)
    requires Shaped(fs) && HasIndirect(fs, inum) && j < NINDIRECT
    requires fs.blocks[fs.inodes[inum].addrs[NDIRECT]] == Zeros()
    ensures Value(fs, Entry(inum, j)) == 0
  {
    ZeroTable();
  }
}
