/** The file system on disk as a value: the free map, the inodes' block lists, and who owns
    which block. */
module FsState {
  import opened FsDisk

  const IPB: nat := 16          // inodes per block

  /** What the superblock says, with the first data block. */
  datatype Geometry = Geometry(size: nat, ninodes: nat, inodestart: nat, bmapstart: nat, datastart: nat)

  datatype Inode = Inode(size: nat, addrs: seq<nat>)

  datatype Fs = Fs(g: Geometry, blocks: seq<Block>, inodes: seq<Inode>)

  /** A place that can hold a block number: in an inode, or in an indirect block. */
  datatype Slot = Direct(inum: nat, i: nat) | Indirect(inum: nat) | Entry(inum: nat, j: nat)

  /** Metadata first: inode blocks, then the free map, then data. */
  predicate Laid(g: Geometry) {
    && 0 < g.datastart <= g.size < 0x1_0000_0000
    && g.inodestart + g.ninodes / IPB < g.bmapstart
    && g.bmapstart + g.size / BPB < g.datastart
  }

  predicate Shaped(fs: Fs) {
    && Laid(fs.g) && |fs.blocks| == fs.g.size && |fs.inodes| == fs.g.ninodes
    && forall i :: 0 <= i < |fs.inodes| ==> |fs.inodes[i].addrs| == NDIRECT + 1
  }

  predicate SlotOk(fs: Fs, s: Slot) {
    s.inum < |fs.inodes| && match s
    case Direct(_, i) => i < NDIRECT
    case Indirect(_) => true
    case Entry(_, j) => j < NINDIRECT
  }

  /** The block number in a slot; 0 for none. */
  function Value(fs: Fs, s: Slot): nat
    requires Shaped(fs) && SlotOk(fs, s)
  {
    match s
    case Direct(inum, i) => fs.inodes[inum].addrs[i]
    case Indirect(inum) => fs.inodes[inum].addrs[NDIRECT]
    case Entry(inum, j) =>
      var a := fs.inodes[inum].addrs[NDIRECT];
      if a == 0 || a >= fs.g.size then 0 else Word(fs.blocks[a], j)
  }

  /** BBLOCK. */
  function MapBlock(g: Geometry, b: nat): nat {
    g.bmapstart + b / BPB
  }

  /** Block b's bit in the free map. */
  predicate Used(fs: Fs, b: nat)
    requires Shaped(fs) && b < fs.g.size
  {
    MapBit(fs.blocks[MapBlock(fs.g, b)], b % BPB)
  }

  /** Every block of a slot belongs to that slot alone, and lies in the data area. */
  ghost predicate Owned(fs: Fs, owner: map<nat, Slot>)
    requires Shaped(fs)
  {
    && (forall b :: b in owner ==>
          fs.g.datastart <= b < fs.g.size && SlotOk(fs, owner[b]) && Value(fs, owner[b]) == b)
    && (forall s {:trigger SlotOk(fs, s)} :: SlotOk(fs, s) ==> OwnsValue(fs, owner, s))
  }

  ghost predicate OwnsValue(fs: Fs, owner: map<nat, Slot>, s: Slot)
    requires Shaped(fs) && SlotOk(fs, s)
  {
    Value(fs, s) != 0 ==> Value(fs, s) in owner && owner[Value(fs, s)] == s
  }

  /** A bit is set exactly for metadata, owned blocks and the blocks in `held`, which are
      allocated but not yet in a slot. */
  ghost predicate MapExact(fs: Fs, owner: map<nat, Slot>, held: set<nat>)
    requires Shaped(fs)
  {
    forall b {:trigger Used(fs, b)} :: 0 <= b < fs.g.size ==>
      (Used(fs, b) <==> b < fs.g.datastart || b in owner || b in held)
  }

  ghost predicate Partition(fs: Fs, owner: map<nat, Slot>, held: set<nat>) {
    && Shaped(fs) && Owned(fs, owner) && MapExact(fs, owner, held)
    && forall b :: b in held ==> b !in owner && fs.g.datastart <= b < fs.g.size
  }

  /** Two slots never hold the same block. */
  lemma SlotsDistinct(fs: Fs, owner: map<nat, Slot>, held: set<nat>, s: Slot, t: Slot)
    requires Partition(fs, owner, held) && SlotOk(fs, s) && SlotOk(fs, t)
    requires Value(fs, s) == Value(fs, t) != 0
    ensures s == t
  {
    assert OwnsValue(fs, owner, s) && OwnsValue(fs, owner, t);
  }

  /** Blocks that hold no slots: anything but the indirect blocks in use. */
  ghost predicate Harmless(fs: Fs, b: nat)
    requires Shaped(fs)
  {
    forall i :: 0 <= i < |fs.inodes| ==> fs.inodes[i].addrs[NDIRECT] != b || b == 0
  }

  /** Rewriting a block that holds no slots changes no slot. */
  lemma RewriteKeepsValues(fs: Fs, b: nat, data: Block, s: Slot)
    requires Shaped(fs) && b < fs.g.size && Harmless(fs, b) && SlotOk(fs, s)
    ensures var fs' := fs.(blocks := fs.blocks[b := data]);
            Shaped(fs') && SlotOk(fs', s) && Value(fs', s) == Value(fs, s)
  {
  }

  lemma MetadataHarmless(fs: Fs, owner: map<nat, Slot>, b: nat)
    requires Shaped(fs) && Owned(fs, owner) && b < fs.g.size
    requires b in owner ==> !owner[b].Indirect?
    ensures Harmless(fs, b)
  {
    forall i | 0 <= i < |fs.inodes| && fs.inodes[i].addrs[NDIRECT] == b ensures b == 0 {
      assert SlotOk(fs, Indirect(i)) && OwnsValue(fs, owner, Indirect(i));
    }
  }

  /** The free map fills the disk up to the data area. */
  predicate IsMapBlock(g: Geometry, m: nat) {
    g.bmapstart <= m < g.datastart
  }

  lemma MapBlockInRange(g: Geometry, b: nat)
    requires b < g.size && Laid(g)
    ensures IsMapBlock(g, MapBlock(g, b))
  {
    assert b / BPB <= g.size / BPB;
  }

  lemma RewriteOwned(fs: Fs, owner: map<nat, Slot>, b: nat, data: Block)
    requires Shaped(fs) && Owned(fs, owner) && b < fs.g.size && Harmless(fs, b)
    ensures Shaped(fs.(blocks := fs.blocks[b := data])) && Owned(fs.(blocks := fs.blocks[b := data]), owner)
  {
    var fs' := fs.(blocks := fs.blocks[b := data]);
    forall s | SlotOk(fs', s) ensures OwnsValue(fs', owner, s) {
      RewriteKeepsValues(fs, b, data, s);
      assert SlotOk(fs, s) && OwnsValue(fs, owner, s);
    }
    forall c | c in owner ensures SlotOk(fs', owner[c]) && Value(fs', owner[c]) == c {
      RewriteKeepsValues(fs, b, data, owner[c]);
    }
  }

  lemma RewriteUsed(fs: Fs, m: nat, data: Block, b: nat)
    requires Shaped(fs) && m < fs.g.size && b < fs.g.size && Shaped(fs.(blocks := fs.blocks[m := data]))
    ensures Used(fs.(blocks := fs.blocks[m := data]), b)
            <==> if MapBlock(fs.g, b) == m then MapBit(data, b % BPB) else Used(fs, b)
  {
  }

  /** Rewriting a block that holds no slots, outside the free map, keeps the partition. */
  lemma RewriteKeeps(fs: Fs, owner: map<nat, Slot>, held: set<nat>, b: nat, data: Block)
    requires Partition(fs, owner, held) && b < fs.g.size && Harmless(fs, b) && !IsMapBlock(fs.g, b)
    ensures Partition(fs.(blocks := fs.blocks[b := data]), owner, held)
  {
    RewriteOwned(fs, owner, b, data);
    var fs' := fs.(blocks := fs.blocks[b := data]);
    forall c | 0 <= c < fs.g.size ensures Used(fs', c) <==> c < fs.g.datastart || c in owner || c in held {
      MapBlockInRange(fs.g, c);
      RewriteUsed(fs, b, data, c);
    }
  }

  /** Rewriting a free-map block keeps the slots; the bits are as the new block says. */
  lemma RemapKeeps(fs: Fs, owner: map<nat, Slot>, held: set<nat>, m: nat, data: Block, held': set<nat>)
    requires Partition(fs, owner, held) && IsMapBlock(fs.g, m)
    requires forall b :: 0 <= b < fs.g.size && MapBlock(fs.g, b) == m ==>
               (MapBit(data, b % BPB) <==> b < fs.g.datastart || b in owner || b in held')
    requires forall b :: 0 <= b < fs.g.size && MapBlock(fs.g, b) != m ==> (b in held <==> b in held')
    requires forall b :: b in held' ==> b !in owner && fs.g.datastart <= b < fs.g.size
    ensures Partition(fs.(blocks := fs.blocks[m := data]), owner, held')
  {
    MetadataHarmless(fs, owner, m);
    RewriteOwned(fs, owner, m, data);
    var fs' := fs.(blocks := fs.blocks[m := data]);
    forall b | 0 <= b < fs.g.size ensures Used(fs', b) <==> b < fs.g.datastart || b in owner || b in held' {
      RewriteUsed(fs, m, data, b);
    }
  }
}
