/** Disk blocks as the file system code sees them: BSIZE bytes, read as 256 C ints
    wherever the kernel casts a block to an integer array or a log header. */
module Sectors {
  const WORDS: nat := 256

  type Sector = s: seq<int> | |s| == WORDS witness seq(WORDS, i => 0)

  type Disk = seq<Sector>
}
