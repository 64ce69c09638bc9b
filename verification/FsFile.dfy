/** Files as byte sequences over the blocks of an inode. */
module FsFile {
  import opened FsDisk
  import opened FsOwner

  const MAXBYTES := 274432

  /** The block that holds byte `x` of a file, and where in it. */
  function BlockNo(x: nat): nat {
    x / 1024
  }

  function Offset(x: nat): nat {
    x % 1024
  }

  /** Byte `x` of file `i`, whether or not it lies below the file's size. */
  function At(fs: Fs, i: nat, x: nat): nat {
    if x < MAXBYTES && |BlockOf(fs, i, BlockNo(x)).bytes| == BSIZE then BlockOf(fs, i, BlockNo(x)).bytes[Offset(x)]
    else 0
  }

  ghost function FirstBytes(fs: Fs, i: nat, n: nat): (c: seq<nat>)
    ensures |c| == n
  {
    if n == 0 then [] else FirstBytes(fs, i, n - 1) + [At(fs, i, n - 1)]
  }

  lemma {:induction false} FirstBytesAt(fs: Fs, i: nat, n: nat, x: nat)
    requires x < n
    ensures FirstBytes(fs, i, n)[x] == At(fs, i, x)
  {
    if x < n - 1 {
      FirstBytesAt(fs, i, n - 1, x);
    }
  }

  /** The file as its users see it. */
  ghost function Content(fs: Fs, i: nat): (c: seq<nat>)
    requires i in fs.inodes
    ensures |c| == fs.inodes[i].size
  {
    FirstBytes(fs, i, fs.inodes[i].size)
  }

  /** Sizes are in range and no file has a hole below its size. */
  ghost predicate HoleFree(fs: Fs) {
    && (forall i: nat :: i in fs.inodes ==> fs.inodes[i].size <= MAXBYTES)
    && (forall i: nat, n: nat :: i in fs.inodes && n * 1024 < fs.inodes[i].size ==> Ptr(fs, i, n) != 0)
  }

  /** Same inodes with the same sizes. */
  ghost predicate SameSizes(fs: Fs, fs': Fs) {
    && fs'.inodes.Keys == fs.inodes.Keys
    && forall j: nat :: j in fs.inodes ==> fs'.inodes[j].size == fs.inodes[j].size
  }

  ghost predicate SamePtrs(fs: Fs, fs': Fs) {
    forall j: nat, m: nat :: Ptr(fs', j, m) == Ptr(fs, j, m)
  }

  /** Slots in use stay as they are. */
  ghost predicate Keeps(fs: Fs, fs': Fs) {
    forall j: nat, m: nat {:trigger SlotKept(fs, fs', j, m)} :: SlotKept(fs, fs', j, m)
  }

  ghost predicate SlotKept(fs: Fs, fs': Fs, j: nat, m: nat) {
    Ptr(fs, j, m) != 0 ==> Ptr(fs', j, m) == Ptr(fs, j, m)
  }

  lemma KeepsOn(fs0: Fs, fs1: Fs, fs2: Fs)
    requires Keeps(fs0, fs1) && Keeps(fs1, fs2)
    ensures Keeps(fs0, fs2)
  {
    forall j: nat, m: nat
      ensures SlotKept(fs0, fs2, j, m)
    {
      assert SlotKept(fs0, fs1, j, m) && SlotKept(fs1, fs2, j, m);
    }
  }

  lemma KeepsSame(fs0: Fs, fs1: Fs, fs2: Fs)
    requires Keeps(fs0, fs1) && SamePtrs(fs1, fs2)
    ensures Keeps(fs0, fs2)
  {
    forall j: nat, m: nat
      ensures SlotKept(fs0, fs2, j, m)
    {
      assert SlotKept(fs0, fs1, j, m);
    }
  }

  lemma KeepsHoleFree(fs: Fs, fs': Fs)
    requires HoleFree(fs) && SameSizes(fs, fs') && Keeps(fs, fs')
    ensures HoleFree(fs')
  {
    forall i: nat, n: nat | i in fs'.inodes && n * 1024 < fs'.inodes[i].size
      ensures Ptr(fs', i, n) != 0
    {
      assert Ptr(fs, i, n) != 0 && SlotKept(fs, fs', i, n);
    }
  }

  /** A block whose bytes from `o` on are replaced. */
  function Patch(b: Block, o: nat, bytes: seq<nat>): Block {
    if o + |bytes| <= |b.bytes| then Block(b.bytes[..o] + bytes + b.bytes[o + |bytes|..]) else b
  }

  /** Bytes `off` to `off + |bytes|` of file `i` are replaced and no other byte of any file changes. */
  ghost predicate Spliced(fs: Fs, fs': Fs, i: nat, off: nat, bytes: seq<nat>) {
    forall j: nat, x: nat {:trigger ByteSpliced(fs, fs', i, off, bytes, j, x)} ::
      ByteSpliced(fs, fs', i, off, bytes, j, x)
  }

  ghost predicate ByteSpliced(fs: Fs, fs': Fs, i: nat, off: nat, bytes: seq<nat>, j: nat, x: nat) {
    At(fs', j, x) == if j == i && off <= x < off + |bytes| then bytes[x - off] else At(fs, j, x)
  }

  lemma PatchSplices(fs: Fs, own: map<nat, Slot>, meta: nat, i: nat, bn: nat, o: nat, bytes: seq<nat>)
    requires Owned(fs, own, meta) && bn < MAXFILE && Ptr(fs, i, bn) != 0
    requires o + |bytes| <= BSIZE && forall k :: 0 <= k < |bytes| ==> bytes[k] < 256
    ensures Ptr(fs, i, bn) < |fs.data|
    ensures var p := Ptr(fs, i, bn);
            var fs' := fs.(data := fs.data[p := Patch(fs.data[p], o, bytes)]);
            Owned(fs', own, meta) && Spliced(fs, fs', i, bn * 1024 + o, bytes)
              && forall j: nat, m: nat :: Ptr(fs', j, m) == Ptr(fs, j, m)
  {
    var p := Ptr(fs, i, bn);
    var off := bn * 1024 + o;
    assert Holds(own, p, i, bn);
    var blk := Patch(fs.data[p], o, bytes);
    var fs' := fs.(data := fs.data[p := blk]);
    assert IsBlock(fs.data[p]);
    assert IsBlock(blk);
    WriteBlock(fs, own, meta, i, bn, blk);
    forall j: nat, x: nat ensures ByteSpliced(fs, fs', i, off, bytes, j, x) {
      WriteBlockContents(fs, own, meta, i, bn, blk, j, BlockNo(x));
      PatchByte(fs.data[p], bn, o, bytes, x);
    }
  }

  lemma PatchByte(b: Block, bn: nat, o: nat, bytes: seq<nat>, x: nat)
    requires |b.bytes| == BSIZE && o + |bytes| <= BSIZE
    ensures bn * 1024 + o <= x < bn * 1024 + o + |bytes| ==> BlockNo(x) == bn
    ensures |Patch(b, o, bytes).bytes| == BSIZE
    ensures BlockNo(x) == bn ==> (Patch(b, o, bytes).bytes[Offset(x)]
                                  == if o <= Offset(x) < o + |bytes| then bytes[x - bn * 1024 - o]
                                      else b.bytes[Offset(x)])
  {
    if BlockNo(x) == bn {
      assert x == bn * 1024 + Offset(x);
    }
  }

  lemma SplicedMore(fs0: Fs, fs1: Fs, fs2: Fs, i: nat, off: nat, bytes: seq<nat>, more: seq<nat>)
    requires Spliced(fs0, fs1, i, off, bytes) && Spliced(fs1, fs2, i, off + |bytes|, more)
    ensures Spliced(fs0, fs2, i, off, bytes + more)
  {
    var all := bytes + more;
    forall j: nat, x: nat ensures ByteSpliced(fs0, fs2, i, off, all, j, x) {
      assert ByteSpliced(fs0, fs1, i, off, bytes, j, x);
      assert ByteSpliced(fs1, fs2, i, off + |bytes|, more, j, x);
    }
  }

  lemma SameBlocksSplice(fs: Fs, fs': Fs, i: nat, off: nat)
    requires SameBlocks(fs, fs')
    ensures Spliced(fs, fs', i, off, [])
  {
    forall j: nat, x: nat ensures ByteSpliced(fs, fs', i, off, [], j, x) {
      assert BlockOf(fs', j, BlockNo(x)) == BlockOf(fs, j, BlockNo(x));
    }
  }

  lemma EmptiedHoleFree(fs: Fs, fs': Fs, i: nat, ino: Inode)
    requires HoleFree(fs) && fs'.inodes == fs.inodes[i := ino] && ino.size == 0
    requires forall j: nat, n: nat :: Ptr(fs', j, n) == if j == i then 0 else Ptr(fs, j, n)
    ensures HoleFree(fs')
  {
  }

  lemma EmptiedBytes(fs: Fs, fs': Fs, i: nat)
    requires fs'.data == fs.data
    requires forall j: nat, n: nat :: Ptr(fs', j, n) == if j == i then 0 else Ptr(fs, j, n)
    ensures forall j: nat, x: nat :: At(fs', j, x) == if j == i then 0 else At(fs, j, x)
  {
    forall j: nat, x: nat
      ensures At(fs', j, x) == if j == i then 0 else At(fs, j, x)
    {
      assert Ptr(fs', j, BlockNo(x)) == if j == i then 0 else Ptr(fs, j, BlockNo(x));
    }
  }

  lemma SameThenSpliced(fs0: Fs, fs1: Fs, fs2: Fs, i: nat, off: nat, bytes: seq<nat>)
    requires SameBlocks(fs0, fs1) && Spliced(fs1, fs2, i, off, bytes)
    ensures Spliced(fs0, fs2, i, off, bytes)
  {
    SameBlocksSplice(fs0, fs1, i, off);
    assert [] + bytes == bytes;
    SplicedMore(fs0, fs1, fs2, i, off, [], bytes);
  }

  /** Setting the size of a file whose blocks up to there exist. */
  lemma SetSize(fs: Fs, own: map<nat, Slot>, meta: nat, i: nat, size: nat)
    requires Owned(fs, own, meta) && HoleFree(fs) && i in fs.inodes && size <= MAXBYTES
    requires Filled(fs, i, size)
    ensures var fs' := fs.(inodes := fs.inodes[i := fs.inodes[i].(size := size)]);
            Owned(fs', own, meta) && HoleFree(fs') && Spliced(fs, fs', i, 0, []) && SamePtrs(fs, fs')
  {
    var fs' := fs.(inodes := fs.inodes[i := fs.inodes[i].(size := size)]);
    assert forall j: nat, m: nat :: Ptr(fs', j, m) == Ptr(fs, j, m);
    forall j: nat, m: nat | Ptr(fs', j, m) != 0
      ensures Holds(own, Ptr(fs', j, m), j, m)
    {
      assert Holds(own, Ptr(fs, j, m), j, m);
    }
    assert forall c: nat :: c in own ==> Ptr(fs', own[c].inum, own[c].n) == c;
    assert SameBlocks(fs, fs');
    SameBlocksSplice(fs, fs', i, 0);
  }

  /** The 32-bit test `off + n < off`. */
  predicate Overflows(off: nat, n: nat)
    requires off < WORD && n < WORD
    ensures Overflows(off, n) <==> off + n >= WORD
  {
    (off + n) % WORD < off
  }

  function Min(a: nat, b: nat): nat {
    if a < b then a else b
  }

  function Max(a: nat, b: nat): nat {
    if a < b then b else a
  }

  /** Bytes of a request of `left` bytes that fall in its first block, from offset `o` on. */
  function Chunk(o: nat, left: nat): nat
    requires o < BSIZE
  {
    Min(left, BSIZE - o)
  }

  /** Bytes of a request of `n` at `off` in chunks that lie wholly in the first `k` bytes. */
  function Whole(off: nat, n: nat, k: nat): nat {
    if k >= n then n else if BlockNo(off + k) * 1024 > off then BlockNo(off + k) * 1024 - off else 0
  }

  /** Where the walk over the chunks of a request stands: `t` blocks behind it, at offset `o` of the next. */
  ghost predicate AtChunk(o0: nat, n: nat, tot: nat, t: nat, o: nat) {
    && tot <= n
    && (tot < n ==> t * 1024 + o == o0 + tot && o < 1024 && (tot == 0 || o == 0))
    && (t == 0 ==> tot == 0)
    && (t > 0 ==> (t - 1) * 1024 < o0 + n)
  }

  lemma NextChunk(bn0: nat, o0: nat, n: nat, tot: nat, t: nat, at: nat, bn: nat, o: nat)
    requires AtChunk(o0, n, tot, t, at) && tot < n
    requires bn0 * 1024 + o0 + tot == bn * 1024 + o && o < BSIZE
    ensures bn == bn0 + t && o == at && (tot == 0 || o == 0) && 0 < Chunk(o, n - tot)
    ensures t * 1024 < o0 + n && AtChunk(o0, n, tot + Chunk(o, n - tot), t + 1, 0)
  {
  }

  /** The chunk that is not wholly readable is where the count of written bytes stops. */
  lemma StopsAtWhole(off: nat, n: nat, tot: nat, k: nat)
    requires tot <= k < n && tot < n && (tot == 0 || Offset(off + tot) == 0)
    ensures k < tot + Chunk(Offset(off + tot), n - tot) ==> tot == Whole(off, n, k)
    ensures tot <= Whole(off, n, k)
  {
    var x, y := off + tot, off + k;
    var q, p := BlockNo(x), BlockNo(y);
    assert x == q * 1024 + Offset(x) && y == p * 1024 + Offset(y);
    if y < x + Chunk(Offset(x), n - tot) {
      assert p == q;
    }
    assert q <= p;
  }

  lemma SliceBytes(fs: Fs, i: nat, bn: nat, o: nat, m: nat, b: Block)
    requires i in fs.inodes && bn * 1024 + o + m <= fs.inodes[i].size <= MAXBYTES && o + m <= BSIZE
    requires b == BlockOf(fs, i, bn) && |b.bytes| == BSIZE
    ensures b.bytes[o..o + m] == Content(fs, i)[bn * 1024 + o..bn * 1024 + o + m]
  {
    var c := Content(fs, i);
    var u, v := b.bytes[o..o + m], c[bn * 1024 + o..bn * 1024 + o + m];
    forall k | 0 <= k < m
      ensures u[k] == v[k]
    {
      var x := bn * 1024 + o + k;
      assert BlockNo(x) == bn && Offset(x) == o + k;
      FirstBytesAt(fs, i, fs.inodes[i].size, x);
      assert At(fs, i, x) == b.bytes[o + k];
    }
    assert u == v;
  }

  lemma Appended(c: seq<nat>, off: nat, tot: nat, m: nat)
    requires off + tot + m <= |c|
    ensures c[off..off + tot] + c[off + tot..off + tot + m] == c[off..off + tot + m]
  {
  }

  /** Every block of file `i` that holds a byte below `x` exists. */
  ghost predicate Filled(fs: Fs, i: nat, x: nat) {
    forall k: nat :: k * 1024 < x ==> Ptr(fs, i, k) != 0
  }

  /** A write of `src` at `off` so far: `tot` bytes done, `seen` of them stored. */
  ghost predicate Progress(fs0: Fs, fs: Fs, i: nat, off: nat, src: seq<nat>, tot: nat, seen: nat) {
    && tot <= seen <= |src|
    && SameSizes(fs0, fs) && Keeps(fs0, fs)
    && Spliced(fs0, fs, i, off, src[..seen])
    && Filled(fs, i, off + tot)
  }

  lemma ProgressStart(fs: Fs, i: nat, off: nat, src: seq<nat>)
    requires HoleFree(fs) && i in fs.inodes && off <= fs.inodes[i].size
    ensures Progress(fs, fs, i, off, src, 0, 0)
  {
    SameBlocksSplice(fs, fs, i, off);
    forall k: nat | k * 1024 < off
      ensures Ptr(fs, i, k) != 0
    {
    }
  }

  lemma ProgressNext(fs0: Fs, fs1: Fs, fs: Fs, i: nat, off: nat, src: seq<nat>, tot: nat, more: seq<nat>, bn: nat,
                     o: nat, m: nat)
    requires Progress(fs0, fs1, i, off, src, tot, tot) && |more| <= m
    requires tot + |more| <= |src| && more == src[tot..tot + |more|]
    requires SameSizes(fs1, fs) && Keeps(fs1, fs) && Spliced(fs1, fs, i, off + tot, more)
    requires off + tot == bn * 1024 + o && o + m <= BSIZE
    ensures Progress(fs0, fs, i, off, src, tot, tot + |more|)
    ensures |more| == m && Ptr(fs, i, bn) != 0 ==> Progress(fs0, fs, i, off, src, tot + m, tot + m)
  {
    var was := src[..tot];
    assert was + more == src[..tot + |more|];
    SplicedMore(fs0, fs1, fs, i, off, was, more);
    KeepsOn(fs0, fs1, fs);
    FilledNext(fs1, fs, i, bn, o, m);
  }

  lemma FilledNext(fs1: Fs, fs: Fs, i: nat, bn: nat, o: nat, m: nat)
    requires Filled(fs1, i, bn * 1024 + o) && Keeps(fs1, fs) && o + m <= BSIZE
    ensures Filled(fs, i, bn * 1024 + o)
    ensures Ptr(fs, i, bn) != 0 ==> Filled(fs, i, bn * 1024 + o + m)
  {
    forall k: nat | k < bn || (k == bn && o > 0)
      ensures Ptr(fs, i, k) != 0
    {
      assert Ptr(fs1, i, k) != 0 && SlotKept(fs1, fs, i, k);
    }
  }

  lemma FilledSize(fs0: Fs, fs: Fs, i: nat, off: nat, tot: nat)
    requires HoleFree(fs) && SameSizes(fs0, fs) && i in fs0.inodes && Filled(fs, i, off + tot)
    ensures Filled(fs, i, Max(fs0.inodes[i].size, off + tot))
  {
  }

  lemma SplicedSize(fs0: Fs, fs1: Fs, fs2: Fs, i: nat, off: nat, bytes: seq<nat>)
    requires Spliced(fs0, fs1, i, off, bytes) && Spliced(fs1, fs2, i, 0, [])
    ensures Spliced(fs0, fs2, i, off, bytes)
  {
    forall j: nat, x: nat ensures ByteSpliced(fs0, fs2, i, off, bytes, j, x) {
      assert ByteSpliced(fs0, fs1, i, off, bytes, j, x);
      assert ByteSpliced(fs1, fs2, i, 0, [], j, x);
    }
  }
}
