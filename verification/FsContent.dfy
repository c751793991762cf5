/** What the bytes of a file are, and how writing one block changes them. */
module FsContent {
  import opened Params
  import opened FsDisk
  import opened FsState
  import opened FsSlots

  const MAXBYTES: nat := MAXFILE * BSIZE

  /** The slot for block bn of a file. */
  function SlotOf(inum: nat, bn: nat): Slot {
    if bn < NDIRECT then Direct(inum, bn) else Entry(inum, bn - NDIRECT)
  }

  /** Position p of file inum lies in an allocated block. */
  predicate Mapped(fs: Fs, inum: nat, p: nat) {
    && Shaped(fs) && inum < |fs.inodes| && p < MAXBYTES
    && 0 < Value(fs, SlotOf(inum, p / BSIZE)) < fs.g.size
  }

  function ByteAt(fs: Fs, inum: nat, p: nat): Byte
    requires Mapped(fs, inum, p)
  {
    fs.blocks[Value(fs, SlotOf(inum, p / BSIZE))][p % BSIZE]
  }

  /** Position p of file inum is allocated and holds x. */
  predicate Holds(fs: Fs, inum: nat, p: nat, x: Byte) {
    Mapped(fs, inum, p) && ByteAt(fs, inum, p) == x
  }

  /** No unallocated block below the file's size. */
  ghost predicate NoHoles(fs: Fs, inum: nat)
    requires Shaped(fs) && inum < |fs.inodes|
  {
    && fs.inodes[inum].size <= MAXBYTES
    && forall p :: 0 <= p < fs.inodes[inum].size ==> Mapped(fs, inum, p)
  }

  /** The contents of a file. */
  function Content(fs: Fs, inum: nat): (c: seq<Byte>)
    requires Shaped(fs) && inum < |fs.inodes| && NoHoles(fs, inum)
    ensures |c| == fs.inodes[inum].size
  {
    seq(fs.inodes[inum].size, p requires 0 <= p < fs.inodes[inum].size => ByteAt(fs, inum, p))
  }

  /** File inum has no holes and its contents are c. */
  ghost predicate Contains(fs: Fs, inum: nat, c: seq<Byte>) {
    Shaped(fs) && inum < |fs.inodes| && NoHoles(fs, inum) && c == Content(fs, inum)
  }

  ghost predicate Whole(fs: Fs) {
    Shaped(fs) && forall k :: 0 <= k < |fs.inodes| ==> NoHoles(fs, k)
  }

  /** The contents of every file. */
  ghost function Files(fs: Fs): (f: seq<seq<Byte>>)
    requires Whole(fs)
    ensures |f| == |fs.inodes|
  {
    seq(|fs.inodes|, k requires 0 <= k < |fs.inodes| => Content(fs, k))
  }

  /** The sound states: blocks partitioned among their owners and no file with holes. */
  ghost predicate Sound(fs: Fs, owner: map<nat, Slot>) {
    Partition(fs, owner, {}) && Whole(fs)
  }

  function SpliceBlock(b: Block, off: nat, bytes: seq<Byte>): Block
    requires off + |bytes| <= BSIZE
  {
    b[..off] + bytes + b[off + |bytes|..]
  }

  /** The disk after `bytes` have been copied into the block at position a of a file. */
  function Written(fs: Fs, inum: nat, a: nat, bytes: seq<Byte>): Fs
    requires Mapped(fs, inum, a) && a % BSIZE + |bytes| <= BSIZE
  {
    var b := Value(fs, SlotOf(inum, a / BSIZE));
    fs.(blocks := fs.blocks[b := SpliceBlock(fs.blocks[b], a % BSIZE, bytes)])
  }

  lemma MappedOwner(fs: Fs, owner: map<nat, Slot>, held: set<nat>, inum: nat, p: nat)
    requires Partition(fs, owner, held) && Mapped(fs, inum, p)
    ensures var b := Value(fs, SlotOf(inum, p / BSIZE));
            b in owner && owner[b] == SlotOf(inum, p / BSIZE) && b >= fs.g.datastart
            && Harmless(fs, b) && !IsMapBlock(fs.g, b)
  {
    assert SlotOk(fs, SlotOf(inum, p / BSIZE)) && OwnsValue(fs, owner, SlotOf(inum, p / BSIZE));
    MetadataHarmless(fs, owner, Value(fs, SlotOf(inum, p / BSIZE)));
  }

  lemma WrittenKeeps(fs: Fs, owner: map<nat, Slot>, inum: nat, a: nat, bytes: seq<Byte>)
    requires Partition(fs, owner, {}) && Mapped(fs, inum, a) && a % BSIZE + |bytes| <= BSIZE
    ensures Partition(Written(fs, inum, a, bytes), owner, {})
  {
    MappedOwner(fs, owner, {}, inum, a);
    var b := Value(fs, SlotOf(inum, a / BSIZE));
    RewriteKeeps(fs, owner, {}, b, SpliceBlock(fs.blocks[b], a % BSIZE, bytes));
  }

  lemma SamePlace(p: nat, a: nat, n: nat)
    requires a % BSIZE + n <= BSIZE && p / BSIZE == a / BSIZE
    ensures a <= p < a + n <==> a % BSIZE <= p % BSIZE < a % BSIZE + n
    ensures p - a == p % BSIZE - a % BSIZE
  {
    assert p == BSIZE * (p / BSIZE) + p % BSIZE && a == BSIZE * (a / BSIZE) + a % BSIZE;
  }

  lemma OtherBlock(p: nat, a: nat, n: nat)
    requires a % BSIZE + n <= BSIZE && p / BSIZE != a / BSIZE
    ensures !(a <= p < a + n)
  {
    assert p == BSIZE * (p / BSIZE) + p % BSIZE && a == BSIZE * (a / BSIZE) + a % BSIZE;
  }

  /** Copying bytes into one block of one file changes those positions of that file and
      nothing else in any file. */
  lemma WrittenByte(fs: Fs, owner: map<nat, Slot>, inum: nat, a: nat, bytes: seq<Byte>, k: nat, p: nat)
    requires Partition(fs, owner, {}) && Mapped(fs, inum, a) && a % BSIZE + |bytes| <= BSIZE && Mapped(fs, k, p)
    ensures Holds(Written(fs, inum, a, bytes), k, p,
                  if k == inum && a <= p < a + |bytes| then bytes[p - a] else ByteAt(fs, k, p))
  {
    MappedOwner(fs, owner, {}, inum, a);
    MappedOwner(fs, owner, {}, k, p);
    var b, s := Value(fs, SlotOf(inum, a / BSIZE)), SlotOf(k, p / BSIZE);
    RewriteKeepsValues(fs, b, SpliceBlock(fs.blocks[b], a % BSIZE, bytes), s);
    if Value(fs, s) == b {
      SlotsDistinct(fs, owner, {}, s, SlotOf(inum, a / BSIZE));
      SamePlace(p, a, |bytes|);
    } else if k == inum {
      OtherBlock(p, a, |bytes|);
    }
  }
}
