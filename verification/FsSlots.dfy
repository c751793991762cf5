/** Putting blocks into slots and taking them out again. */
module FsSlots {
  import opened FsDisk
  import opened FsState

  function WithAddr(fs: Fs, inum: nat, i: nat, b: nat): Fs
    requires Shaped(fs) && inum < |fs.inodes| && i <= NDIRECT
  {
    fs.(inodes := fs.inodes[inum := fs.inodes[inum].(addrs := fs.inodes[inum].addrs[i := b])])
  }

  /** The block of inode inum's indirect addresses, in use. */
  predicate HasIndirect(fs: Fs, inum: nat)
    requires Shaped(fs)
  {
    inum < |fs.inodes| && 0 < fs.inodes[inum].addrs[NDIRECT] < fs.g.size
  }

  function WithEntry(fs: Fs, inum: nat, j: nat, b: nat): Fs
    requires Shaped(fs) && HasIndirect(fs, inum) && j < NINDIRECT && b < 0x1_0000_0000
  {
    var ind := fs.inodes[inum].addrs[NDIRECT];
    fs.(blocks := fs.blocks[ind := WithWord(fs.blocks[ind], j, b)])
  }

  lemma DirectValue(fs: Fs, inum: nat, i: nat, b: nat, t: Slot)
    requires Shaped(fs) && inum < |fs.inodes| && i < NDIRECT && SlotOk(fs, t)
    ensures Shaped(WithAddr(fs, inum, i, b)) && SlotOk(WithAddr(fs, inum, i, b), t)
    ensures Value(WithAddr(fs, inum, i, b), t) == if t == Direct(inum, i) then b else Value(fs, t)
  {
  }

  /** A new, zeroed indirect block has no entries yet. */
  lemma IndirectValue(fs: Fs, inum: nat, b: nat, t: Slot)
    requires Shaped(fs) && inum < |fs.inodes| && SlotOk(fs, t) && fs.inodes[inum].addrs[NDIRECT] == 0
    requires b < fs.g.size && EmptyTable(fs.blocks[b])
    ensures Shaped(WithAddr(fs, inum, NDIRECT, b)) && SlotOk(WithAddr(fs, inum, NDIRECT, b), t)
    ensures Value(WithAddr(fs, inum, NDIRECT, b), t) == if t == Indirect(inum) then b else Value(fs, t)
  {
    var fs' := WithAddr(fs, inum, NDIRECT, b);
    match t
    case Direct(n, i) => assert fs'.inodes[n].addrs[i] == fs.inodes[n].addrs[i];
    case Indirect(n) =>
    case Entry(n, j) => assert n == inum ==> Word(fs.blocks[b], j) == 0;
  }

  lemma EntryValue(fs: Fs, owner: map<nat, Slot>, inum: nat, j: nat, b: nat, t: Slot)
    requires Shaped(fs) && Owned(fs, owner) && HasIndirect(fs, inum) && j < NINDIRECT && b < 0x1_0000_0000
    requires SlotOk(fs, t)
    ensures Shaped(WithEntry(fs, inum, j, b)) && SlotOk(WithEntry(fs, inum, j, b), t)
    ensures Value(WithEntry(fs, inum, j, b), t) == if t == Entry(inum, j) then b else Value(fs, t)
  {
    var ind := fs.inodes[inum].addrs[NDIRECT];
    assert SlotOk(fs, Indirect(inum)) && OwnsValue(fs, owner, Indirect(inum));
    if t.Entry? {
      assert SlotOk(fs, Indirect(t.inum)) && OwnsValue(fs, owner, Indirect(t.inum));
      if t.inum == inum {
        if t.j == j {
          WithWordSame(fs.blocks[ind], j, b);
        } else {
          WithWordOther(fs.blocks[ind], j, b, t.j);
        }
      }
    }
  }

  /** fs' differs from fs only in that slot s, empty before, now holds b. */
  ghost predicate Stored(fs: Fs, fs': Fs, s: Slot, b: nat)
    requires Shaped(fs)
  {
    && Shaped(fs') && fs'.g == fs.g && |fs'.inodes| == |fs.inodes|
    && SlotOk(fs, s) && Value(fs, s) == 0
    && (forall t {:trigger SlotOk(fs', t)} :: SlotOk(fs', t) ==>
          SlotOk(fs, t) && Value(fs', t) == if t == s then b else Value(fs, t))
    && (forall c :: 0 <= c < fs.g.size ==> (Used(fs', c) <==> Used(fs, c)))
  }

  /** Storing an allocated block in an empty slot makes the slot its owner. */
  lemma StoredKeeps(fs: Fs, fs': Fs, owner: map<nat, Slot>, held: set<nat>, s: Slot, b: nat)
    requires Partition(fs, owner, held) && b in held && Stored(fs, fs', s, b)
    ensures Partition(fs', owner[b := s], held - {b})
  {
    var owner' := owner[b := s];
    forall t | SlotOk(fs', t) ensures OwnsValue(fs', owner', t) {
      assert SlotOk(fs, t) && OwnsValue(fs, owner, t);
    }
    forall c | c in owner' ensures SlotOk(fs', owner'[c]) && Value(fs', owner'[c]) == c {
      assert c != b ==> SlotOk(fs', owner[c]);
      assert SlotOk(fs', s);
    }
    assert forall c :: 0 <= c < fs.g.size ==> (Used(fs', c) <==> c < fs.g.datastart || c in owner' || c in held - {b});
  }

  lemma StoreDirect(fs: Fs, inum: nat, i: nat, b: nat)
    requires Shaped(fs) && inum < |fs.inodes| && i < NDIRECT && fs.inodes[inum].addrs[i] == 0
    ensures Stored(fs, WithAddr(fs, inum, i, b), Direct(inum, i), b)
  {
    var fs' := WithAddr(fs, inum, i, b);
    forall t | SlotOk(fs', t)
      ensures SlotOk(fs, t) && Value(fs', t) == if t == Direct(inum, i) then b else Value(fs, t)
    {
      assert SlotOk(fs, t);
      DirectValue(fs, inum, i, b, t);
    }
  }

  lemma StoreIndirect(fs: Fs, inum: nat, b: nat)
    requires Shaped(fs) && inum < |fs.inodes| && fs.inodes[inum].addrs[NDIRECT] == 0
    requires b < fs.g.size && EmptyTable(fs.blocks[b])
    ensures Stored(fs, WithAddr(fs, inum, NDIRECT, b), Indirect(inum), b)
  {
    var fs' := WithAddr(fs, inum, NDIRECT, b);
    forall t | SlotOk(fs', t)
      ensures SlotOk(fs, t) && Value(fs', t) == if t == Indirect(inum) then b else Value(fs, t)
    {
      assert SlotOk(fs, t);
      IndirectValue(fs, inum, b, t);
    }
  }

  lemma StoreEntry(fs: Fs, owner: map<nat, Slot>, inum: nat, j: nat, b: nat)
    requires Shaped(fs) && Owned(fs, owner) && HasIndirect(fs, inum) && j < NINDIRECT && b < fs.g.size
    requires Value(fs, Entry(inum, j)) == 0
    ensures Stored(fs, WithEntry(fs, inum, j, b), Entry(inum, j), b)
  {
    var fs' := WithEntry(fs, inum, j, b);
    var ind := fs.inodes[inum].addrs[NDIRECT];
    assert SlotOk(fs, Indirect(inum)) && OwnsValue(fs, owner, Indirect(inum));
    forall t | SlotOk(fs', t)
      ensures SlotOk(fs, t) && Value(fs', t) == if t == Entry(inum, j) then b else Value(fs, t)
    {
      assert SlotOk(fs, t);
      EntryValue(fs, owner, inum, j, b, t);
    }
    forall c | 0 <= c < fs.g.size ensures Used(fs', c) <==> Used(fs, c) {
      MapBlockInRange(fs.g, c);
      RewriteUsed(fs, ind, fs'.blocks[ind], c);
    }
  }

  function WithUsed(fs: Fs, b: nat): (r: Fs)
    requires Shaped(fs) && b < fs.g.size && !Used(fs, b)
    ensures Shaped(r)
  {
    var m := MapBlock(fs.g, b);
    fs.(blocks := fs.blocks[m := WithBit(fs.blocks[m], b % BPB)])
  }

  function WithUnused(fs: Fs, b: nat): (r: Fs)
    requires Shaped(fs) && b < fs.g.size && Used(fs, b)
    ensures Shaped(r)
  {
    var m := MapBlock(fs.g, b);
    fs.(blocks := fs.blocks[m := WithoutBit(fs.blocks[m], b % BPB)])
  }

  /** Within one free-map block, the position determines the block. */
  lemma SamePosition(g: Geometry, b: nat, c: nat)
    requires MapBlock(g, b) == MapBlock(g, c) && b % BPB == c % BPB
    ensures b == c
  {
    assert b == BPB * (b / BPB) + b % BPB && c == BPB * (c / BPB) + c % BPB;
  }

  /** Setting a clear bit allocates exactly that block, and it is a data block. */
  lemma AllocKeeps(fs: Fs, owner: map<nat, Slot>, held: set<nat>, b: nat)
    requires Partition(fs, owner, held) && b < fs.g.size && !Used(fs, b)
    ensures b >= fs.g.datastart && b !in owner && b !in held
    ensures Partition(WithUsed(fs, b), owner, held + {b})
  {
    var m := MapBlock(fs.g, b);
    MapBlockInRange(fs.g, b);
    var data := WithBit(fs.blocks[m], b % BPB);
    forall c | 0 <= c < fs.g.size && MapBlock(fs.g, c) == m
      ensures MapBit(data, c % BPB) <==> c < fs.g.datastart || c in owner || c in held + {b}
    {
      assert Used(fs, c) == MapBit(fs.blocks[m], c % BPB);
      if c % BPB == b % BPB {
        SamePosition(fs.g, b, c);
      }
    }
    RemapKeeps(fs, owner, held, m, data, held + {b});
  }

  /** Clearing the bit of an allocated block that is in no slot frees exactly that block. */
  lemma FreeKeeps(fs: Fs, owner: map<nat, Slot>, held: set<nat>, b: nat)
    requires Partition(fs, owner, held) && b in held
    ensures Used(fs, b)
    ensures Partition(WithUnused(fs, b), owner, held - {b})
  {
    var m := MapBlock(fs.g, b);
    MapBlockInRange(fs.g, b);
    assert Used(fs, b);
    var data := WithoutBit(fs.blocks[m], b % BPB);
    forall c | 0 <= c < fs.g.size && MapBlock(fs.g, c) == m
      ensures MapBit(data, c % BPB) <==> c < fs.g.datastart || c in owner || c in held - {b}
    {
      assert Used(fs, c) == MapBit(fs.blocks[m], c % BPB);
      if c % BPB == b % BPB {
        SamePosition(fs.g, b, c);
      }
    }
    RemapKeeps(fs, owner, held, m, data, held - {b});
  }

  /** Clearing a slot of an inode leaves its block allocated but in no slot. */
  lemma DetachDirect(fs: Fs, owner: map<nat, Slot>, held: set<nat>, inum: nat, i: nat)
    requires Partition(fs, owner, held) && inum < |fs.inodes| && i < NDIRECT && fs.inodes[inum].addrs[i] != 0
    ensures fs.inodes[inum].addrs[i] in owner
    ensures var b := fs.inodes[inum].addrs[i];
            Partition(WithAddr(fs, inum, i, 0), owner - {b}, held + {b})
  {
    var b, fs' := fs.inodes[inum].addrs[i], WithAddr(fs, inum, i, 0);
    assert SlotOk(fs, Direct(inum, i)) && OwnsValue(fs, owner, Direct(inum, i));
    var owner' := owner - {b};
    forall t | SlotOk(fs', t) ensures OwnsValue(fs', owner', t) {
      assert SlotOk(fs, t) && OwnsValue(fs, owner, t);
      DirectValue(fs, inum, i, 0, t);
    }
    forall c | c in owner' ensures SlotOk(fs', owner'[c]) && Value(fs', owner'[c]) == c {
      DirectValue(fs, inum, i, 0, owner[c]);
    }
    assert forall c :: 0 <= c < fs.g.size ==> (Used(fs', c) <==> Used(fs, c));
  }

  predicate Indirectly(s: Slot, inum: nat) {
    s == Indirect(inum) || (s.Entry? && s.inum == inum)
  }

  /** The indirect block of an inode and the blocks in it. */
  ghost function IndirectBlocks(owner: map<nat, Slot>, inum: nat): set<nat> {
    set b | b in owner && Indirectly(owner[b], inum)
  }

  lemma DetachIndirect(fs: Fs, owner: map<nat, Slot>, held: set<nat>, inum: nat)
    requires Partition(fs, owner, held) && inum < |fs.inodes|
    ensures var gone := IndirectBlocks(owner, inum);
            Partition(WithAddr(fs, inum, NDIRECT, 0), owner - gone, held + gone)
  {
    var gone, fs' := IndirectBlocks(owner, inum), WithAddr(fs, inum, NDIRECT, 0);
    var owner' := owner - gone;
    forall t | SlotOk(fs', t) ensures OwnsValue(fs', owner', t) {
      assert SlotOk(fs, t) && OwnsValue(fs, owner, t);
      IndirectCleared(fs, inum, t);
    }
    forall c | c in owner' ensures SlotOk(fs', owner'[c]) && Value(fs', owner'[c]) == c {
      IndirectCleared(fs, inum, owner[c]);
    }
    assert forall c :: 0 <= c < fs.g.size ==> (Used(fs', c) <==> Used(fs, c));
  }

  lemma IndirectCleared(fs: Fs, inum: nat, t: Slot)
    requires Shaped(fs) && inum < |fs.inodes| && SlotOk(fs, t)
    ensures Shaped(WithAddr(fs, inum, NDIRECT, 0)) && SlotOk(WithAddr(fs, inum, NDIRECT, 0), t)
    ensures Value(WithAddr(fs, inum, NDIRECT, 0), t) == if Indirectly(t, inum) then 0 else Value(fs, t)
  {
  }
}
