/** Disk blocks as bytes, and the two things fs.c packs into them: bits of the free map
    and 32-bit block addresses. */
module FsDisk {
  import opened Params

  const BSIZE: nat := 1024
  const BPB: nat := BSIZE * 8
  const NDIRECT: nat := 12
  const NINDIRECT: nat := BSIZE / 4
  const MAXFILE: nat := NDIRECT + NINDIRECT

  type Block = b: seq<Byte> | |b| == BSIZE witness seq(BSIZE, i => 0)

  function Zeros(): Block {
    seq(BSIZE, i => 0)
  }

  function Pow2(k: nat): (p: nat)
    ensures p > 0
  {
    if k == 0 then 1 else 2 * Pow2(k - 1)
  }

  /** (x & (1 << k)) != 0. */
  predicate Bit(x: nat, k: nat) {
    if k == 0 then x % 2 == 1 else Bit(x / 2, k - 1)
  }

  /** x | (1 << k), for a clear bit. */
  lemma {:induction false} SetBit(x: nat, k: nat, j: nat)
    requires !Bit(x, k)
    ensures Bit(x + Pow2(k), j) <==> j == k || Bit(x, j)
  {
    if k == 0 {
      assert (x + 1) / 2 == x / 2;
    } else {
      assert (x + Pow2(k)) / 2 == x / 2 + Pow2(k - 1);
      if j > 0 {
        SetBit(x / 2, k - 1, j - 1);
      }
    }
  }

  lemma {:induction false} SetBitFits(x: nat, k: nat, n: nat)
    requires !Bit(x, k) && k < n && x < Pow2(n)
    ensures x + Pow2(k) < Pow2(n)
  {
    assert Pow2(n) == 2 * Pow2(n - 1) && x == 2 * (x / 2) + x % 2;
    if k > 0 {
      SetBitFits(x / 2, k - 1, n - 1);
      assert Pow2(k) == 2 * Pow2(k - 1);
    }
  }

  /** x & ~(1 << k), for a set bit. */
  lemma {:induction false} ClearBit(x: nat, k: nat, j: nat)
    requires Bit(x, k)
    ensures x >= Pow2(k)
    ensures Bit(x - Pow2(k), j) <==> j != k && Bit(x, j)
  {
    if k == 0 {
      assert (x - 1) / 2 == x / 2;
    } else {
      ClearBit(x / 2, k - 1, if j > 0 then j - 1 else 0);
      assert (x - Pow2(k)) / 2 == x / 2 - Pow2(k - 1);
    }
  }

  lemma Pow2Of8()
    ensures Pow2(8) == 256
  {
    assert Pow2(4) == 16;
  }

  /** The free-map bit for position bi of a free-map block. */
  predicate MapBit(b: Block, bi: nat)
    requires bi < BPB
  {
    Bit(b[bi / 8], bi % 8)
  }

  function WithBit(b: Block, bi: nat): (r: Block)
    requires bi < BPB && !MapBit(b, bi)
    ensures forall j :: 0 <= j < BPB ==> (MapBit(r, j) <==> j == bi || MapBit(b, j))
  {
    Pow2Of8();
    SetBitFits(b[bi / 8], bi % 8, 8);
    var x: Byte := b[bi / 8] + Pow2(bi % 8);
    var r: Block := b[bi / 8 := x];
    assert forall j :: 0 <= j < BPB ==> (MapBit(r, j) <==> j == bi || MapBit(b, j)) by {
      forall j | 0 <= j < BPB ensures MapBit(r, j) <==> j == bi || MapBit(b, j) {
        SetBit(b[bi / 8], bi % 8, j % 8);
      }
    }
    r
  }

  function WithoutBit(b: Block, bi: nat): (r: Block)
    requires bi < BPB && MapBit(b, bi)
    ensures forall j :: 0 <= j < BPB ==> (MapBit(r, j) <==> j != bi && MapBit(b, j))
  {
    ClearBit(b[bi / 8], bi % 8, 0);
    var x: Byte := b[bi / 8] - Pow2(bi % 8);
    var r: Block := b[bi / 8 := x];
    assert forall j :: 0 <= j < BPB ==> (MapBit(r, j) <==> j != bi && MapBit(b, j)) by {
      forall j | 0 <= j < BPB ensures MapBit(r, j) <==> j != bi && MapBit(b, j) {
        ClearBit(b[bi / 8], bi % 8, j % 8);
      }
    }
    r
  }

  function FromBytes(b0: Byte, b1: Byte, b2: Byte, b3: Byte): nat {
    (b0 as int) + 256 * (b1 as int) + 65536 * (b2 as int) + 16777216 * (b3 as int)
  }

  /** ((uint*)data)[j], little-endian. */
  function Word(b: Block, j: nat): nat
    requires j < NINDIRECT
  {
    FromBytes(b[4 * j], b[4 * j + 1], b[4 * j + 2], b[4 * j + 3])
  }

  /** ((uint*)data)[j] = w. */
  function WithWord(b: Block, j: nat, w: nat): Block
    requires j < NINDIRECT && w < 0x1_0000_0000
  {
    var b0: Byte, b1: Byte, b2: Byte, b3: Byte := w % 256, w / 256 % 256, w / 65536 % 256, w / 16777216;
    b[..4 * j] + [b0, b1, b2, b3] + b[4 * j + 4..]
  }

  lemma SplitWord(w: nat)
    ensures w == w % 256 + 256 * (w / 256 % 256) + 65536 * (w / 65536 % 256) + 16777216 * (w / 16777216)
  {
    var a := w / 256;
    assert w == 256 * a + w % 256;
    assert a == 256 * (a / 256) + a % 256 && a / 256 == w / 65536;
    var c := a / 256;
    assert c == 256 * (c / 256) + c % 256 && c / 256 == w / 16777216;
  }

  lemma WithWordSame(b: Block, j: nat, w: nat)
    requires j < NINDIRECT && w < 0x1_0000_0000
    ensures Word(WithWord(b, j, w), j) == w
  {
    SplitWord(w);
  }

  lemma WithWordOther(b: Block, j: nat, w: nat, i: nat)
    requires j < NINDIRECT && w < 0x1_0000_0000 && i < NINDIRECT && i != j
    ensures Word(WithWord(b, j, w), i) == Word(b, i)
  {
    var r := WithWord(b, j, w);
    assert forall x :: 0 <= x < 4 * j || 4 * j + 4 <= x < BSIZE ==> r[x] == b[x];
  }

  /** Read as an array of addresses, the block holds none. */
  ghost predicate EmptyTable(b: Block) {
    forall j :: 0 <= j < NINDIRECT ==> Word(b, j) == 0
  }

  lemma ZeroTable()
    ensures EmptyTable(Zeros())
  {
    var b := Zeros();
    forall j | 0 <= j < NINDIRECT ensures Word(b, j) == 0 {
      assert b[4 * j] == 0 && b[4 * j + 1] == 0 && b[4 * j + 2] == 0 && b[4 * j + 3] == 0;
    }
  }
}
