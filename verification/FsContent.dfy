/** What a write does to a file as a sequence of bytes, and exactly when it does no more than it reports. */
module FsContent {
  import opened FsDisk
  import opened FsOwner
  import opened FsFile
  import opened FsCode

  /** `c` with `b` in place of its bytes from `off` on. */
  ghost function Replace(c: seq<nat>, off: nat, b: seq<nat>): (r: seq<nat>)
    requires off <= |c|
    ensures |r| == Max(|c|, off + |b|)
  {
    c[..off] + b + if off + |b| < |c| then c[off + |b|..] else []
  }

  lemma ReplaceAt(c: seq<nat>, off: nat, b: seq<nat>, x: nat)
    requires off <= |c| && x < Max(|c|, off + |b|)
    ensures Replace(c, off, b)[x] == if off <= x < off + |b| then b[x - off] else c[x]
  {
  }

  lemma SameContent(fs: Fs, fs': Fs, j: nat, n: nat)
    requires forall x: nat :: x < n ==> At(fs', j, x) == At(fs, j, x)
    ensures FirstBytes(fs', j, n) == FirstBytes(fs, j, n)
  {
    forall x: nat | x < n
      ensures FirstBytes(fs', j, n)[x] == FirstBytes(fs, j, n)[x]
    {
      FirstBytesAt(fs, j, n, x);
      FirstBytesAt(fs', j, n, x);
    }
  }

  /**
   * After a write that reports `tot` bytes and stored `seen`, the file is the old one with the stored bytes in place,
   * cut at the new size, and every other file is as before.
   */
  lemma WrittenContent(fs: Fs, fs': Fs, i: nat, off: nat, stored: seq<nat>, tot: nat, j: nat)
    requires i in fs.inodes && i in fs'.inodes && off <= fs.inodes[i].size && tot <= |stored|
    requires Spliced(fs, fs', i, off, stored) && fs'.inodes[i].size == Max(fs.inodes[i].size, off + tot)
    requires j in fs.inodes && j in fs'.inodes && (j != i ==> fs'.inodes[j].size == fs.inodes[j].size)
    ensures Content(fs', i) == Replace(Content(fs, i), off, stored)[..Max(fs.inodes[i].size, off + tot)]
    ensures j != i ==> Content(fs', j) == Content(fs, j)
  {
    var c, c' := Content(fs, i), Content(fs', i);
    var r := Replace(c, off, stored)[..Max(|c|, off + tot)];
    forall x: nat | x < |c'|
      ensures c'[x] == r[x]
    {
      ReplaceAt(c, off, stored, x);
      FirstBytesAt(fs', i, |c'|, x);
      if x < |c| {
        FirstBytesAt(fs, i, |c|, x);
      }
      assert ByteSpliced(fs, fs', i, off, stored, i, x);
    }
    assert c' == r;
    if j != i {
      forall x: nat ensures At(fs', j, x) == At(fs, j, x) {
        assert ByteSpliced(fs, fs', i, off, stored, j, x);
      }
      SameContent(fs, fs', j, fs.inodes[j].size);
    }
  }

  /**
   * The bytes that a copy failing midway leaves below the old end are the ones already there.  `src` is the readable
   * part of the `n` bytes of the request; only its whole chunks count as written.
   */
  predicate LeavesNoTrace(c: seq<nat>, off: nat, n: nat, src: seq<nat>) {
    forall x :: Whole(off, n, |src|) <= x < |src| && off + x < |c| ==> src[x] == c[off + x]
  }

  /** Storing more than is counted shows just where bytes differ below the new size. */
  lemma StoredShows(c: seq<nat>, off: nat, b: seq<nat>, tot: nat)
    requires off <= |c| && tot <= |b|
    ensures Replace(c, off, b)[..Max(|c|, off + tot)] == Replace(c, off, b[..tot])
      <==> forall x :: tot <= x < |b| && off + x < |c| ==> b[x] == c[off + x]
  {
    var l, r := Replace(c, off, b)[..Max(|c|, off + tot)], Replace(c, off, b[..tot]);
    forall x: nat | x < |l|
      ensures l[x] == (if off <= x < off + |b| then b[x - off] else c[x])
      ensures r[x] == (if off <= x < off + tot then b[x - off] else c[x])
    {
      ReplaceAt(c, off, b, x);
      ReplaceAt(c, off, b[..tot], x);
    }
    if l == r {
      forall x | tot <= x < |b| && off + x < |c|
        ensures b[x] == c[off + x]
      {
        assert l[off + x] == r[off + x];
      }
    }
  }

  /** A write that ran out of blocks did so past the end of the file. */
  lemma FullPastEnd(fs: Fs, fs': Fs, i: nat, off: nat, tot: nat)
    requires HoleFree(fs) && Keeps(fs, fs') && i in fs.inodes && Ptr(fs', i, BlockNo(off + tot)) == 0
    ensures fs.inodes[i].size <= off + tot
  {
    var bn := BlockNo(off + tot);
    assert SlotKept(fs, fs', i, bn);
    assert bn * 1024 <= off + tot;
  }

  /** Exactly when `writei` changes just the bytes it reports, as a condition on the call. */
  lemma WriteExactness(fs: Fs, fs': Fs, i: nat, off: nat, n: nat, src: seq<nat>, tot: nat, seen: nat)
    requires HoleFree(fs) && i in fs.inodes && i in fs'.inodes && off <= fs.inodes[i].size
    requires |src| <= n && tot <= seen <= |src| && Spliced(fs, fs', i, off, src[..seen]) && Keeps(fs, fs')
    requires fs'.inodes[i].size == Max(fs.inodes[i].size, off + tot) && Ended(fs', i, off, n, src, tot, seen)
    ensures Content(fs', i) == Replace(Content(fs, i), off, src[..tot]) <==> LeavesNoTrace(Content(fs, i), off, n, src)
  {
    var c := Content(fs, i);
    WrittenContent(fs, fs', i, off, src[..seen], tot, i);
    StoredShows(c, off, src[..seen], tot);
    assert src[..seen][..tot] == src[..tot];
    if tot < n && Ptr(fs', i, BlockNo(off + tot)) == 0 {
      FullPastEnd(fs, fs', i, off, tot);
    }
  }

  /** `writei` replaces exactly the bytes it reports just when the bytes of a failed copy make no difference. */
  method CheckedWrite(f: FileSystem, i: nat, off: nat, n: nat, src: seq<nat>) returns (r: int)
    requires f.Valid() && f.Busy(i) && i in f.fs.inodes && off < WORD && n < WORD
    requires |src| <= n && forall k :: 0 <= k < |src| ==> src[k] < 256
    modifies f
    ensures f.Valid() && i in f.fs.inodes
    ensures r == -1 <==> off > |old(Content(f.fs, i))| || off + n > MAXBYTES
    ensures r == -1 ==> f.fs == old(f.fs)
    ensures r != -1 ==>
      && 0 <= r <= |src|
      && (Content(f.fs, i) == Replace(old(Content(f.fs, i)), off, src[..r]) <==>
            LeavesNoTrace(old(Content(f.fs, i)), off, n, src))
    ensures forall j: nat :: j in f.fs.inodes && j != i ==>
      j in old(f.fs).inodes && Content(f.fs, j) == old(Content(f.fs, j))
  {
    ghost var fs0 := f.fs;
    ghost var seen, t, tx;
    r, seen, t, tx := f.Writei(i, off, n, src);
    if r != -1 {
      WriteExactness(fs0, f.fs, i, off, n, src, r, seen);
      forall j: nat | j in f.fs.inodes && j != i
        ensures Content(f.fs, j) == Content(fs0, j)
      {
        WrittenContent(fs0, f.fs, i, off, src[..seen], r, j);
      }
    }
  }

  /** A write of four bytes to a file of four, of which one byte is readable, reports 0 and still changes the file. */
  method FailedCopyShows(f: FileSystem, i: nat) returns (r: int)
    requires f.Valid() && f.Busy(i) && i in f.fs.inodes && Content(f.fs, i) == [1, 2, 3, 4]
    modifies f
    ensures r == 0 && i in f.fs.inodes && Content(f.fs, i) == [9, 2, 3, 4]
  {
    ghost var fs0 := f.fs;
    ghost var seen, t, tx;
    assert Ptr(f.fs, i, 0) != 0;
    r, seen, t, tx := f.Writei(i, 0, 4, [9]);
    assert Ptr(f.fs, i, 0) != 0;
    assert [9][..seen] == [9];
    WrittenContent(fs0, f.fs, i, 0, [9], 0, i);
  }
}
