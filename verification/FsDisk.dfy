/** Blocks as bytes, block numbers stored in them, and the pointers of an inode. */
module FsDisk {
  import opened Zeros

  const BSIZE := 1024
  const NDIRECT := 12
  const NINDIRECT := 256
  const MAXFILE := 268
  const INDIRECT := 268        // the slot of the indirect block itself
  const WORD := 0x1_0000_0000

  datatype Block = Block(bytes: seq<nat>)

  ghost predicate IsBlock(b: Block) {
    |b.bytes| == BSIZE && forall i :: 0 <= i < BSIZE ==> b.bytes[i] < 256
  }

  const ZERO := Block(Fill(BSIZE))

  lemma ZeroIsBlock()
    ensures IsBlock(ZERO) && forall w :: 0 <= w < NINDIRECT ==> GetWord(ZERO, w) == 0
  {
  }

  /** `((uint*)data)[w]`, little-endian. */
  function GetWord(b: Block, w: nat): nat {
    if |b.bytes| == BSIZE && w < NINDIRECT then
      b.bytes[4 * w] + 256 * (b.bytes[4 * w + 1] + 256 * (b.bytes[4 * w + 2] + 256 * b.bytes[4 * w + 3]))
    else 0
  }

  function PutWord(b: Block, w: nat, v: nat): Block {
    if |b.bytes| == BSIZE && w < NINDIRECT then
      Block(b.bytes[4 * w := v % 256][4 * w + 1 := v / 256 % 256]
                   [4 * w + 2 := v / 256 / 256 % 256][4 * w + 3 := v / 256 / 256 / 256 % 256])
    else b
  }

  lemma Digits(v: nat)
    requires v < WORD
    ensures v == v % 256 + 256 * (v / 256 % 256 + 256 * (v / 256 / 256 % 256 + 256 * (v / 256 / 256 / 256 % 256)))
  {
    var a := v / 256;
    var b := a / 256;
    var c := b / 256;
    assert c < 256;
  }

  /** Storing a block number changes that entry and no other. */
  lemma PutGet(b: Block, w: nat, v: nat, x: nat)
    requires IsBlock(b) && w < NINDIRECT && v < WORD
    ensures IsBlock(PutWord(b, w, v))
    ensures GetWord(PutWord(b, w, v), x) == if x == w then v else GetWord(b, x)
  {
    Digits(v);
  }

  datatype Inode = Inode(size: nat, addrs: seq<nat>)

  /** In-memory inodes, the free bitmap and the blocks as seen through the buffer cache. */
  datatype Fs = Fs(used: seq<bool>, data: seq<Block>, inodes: map<nat, Inode>)

  /** Block number in slot `n` of inode `i`; slot INDIRECT is the indirect block. */
  function Ptr(fs: Fs, i: nat, n: nat): nat {
    if i !in fs.inodes || |fs.inodes[i].addrs| != NDIRECT + 1 then 0
    else
      var a := fs.inodes[i].addrs;
      if n < NDIRECT then a[n]
      else if n == INDIRECT then a[NDIRECT]
      else if a[NDIRECT] == 0 || a[NDIRECT] >= |fs.data| then 0
      else GetWord(fs.data[a[NDIRECT]], n - NDIRECT)
  }
}
