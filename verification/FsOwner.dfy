/** Who owns each block: the invariant, and how linking, writing and freeing a block change it. */
module FsOwner {
  import opened FsDisk

  datatype Slot = Slot(inum: nat, n: nat)

  ghost predicate Shape(fs: Fs) {
    && |fs.used| == |fs.data| < WORD
    && (forall b :: 0 <= b < |fs.data| ==> IsBlock(fs.data[b]))
    && (forall i: nat :: i in fs.inodes ==> |fs.inodes[i].addrs| == NDIRECT + 1)
  }

  /** `own` names the one slot that refers to each block in use; blocks below `meta` are reserved. */
  ghost predicate Owned(fs: Fs, own: map<nat, Slot>, meta: nat) {
    && Shape(fs)
    && 0 < meta <= |fs.used|
    && (forall b: nat :: b < |fs.used| ==> fs.used[b] == (b < meta || b in own))
    && (forall b: nat {:trigger own[b]} :: b in own ==> meta <= b < |fs.used| && Ptr(fs, own[b].inum, own[b].n) == b)
    && (forall i: nat, n: nat {:trigger Holds(own, Ptr(fs, i, n), i, n)} ::
         Ptr(fs, i, n) != 0 ==> Holds(own, Ptr(fs, i, n), i, n))
  }

  ghost predicate Holds(own: map<nat, Slot>, b: nat, i: nat, n: nat) {
    b in own && own[b] == Slot(i, n)
  }

  /** No block is referred to twice, every referenced block is marked in use and every marked one is referenced. */
  lemma OwnershipExact(fs: Fs, own: map<nat, Slot>, meta: nat, i: nat, n: nat, j: nat, m: nat, b: nat)
    requires Owned(fs, own, meta)
    ensures Ptr(fs, i, n) != 0 && Ptr(fs, i, n) == Ptr(fs, j, m) ==> i == j && n == m
    ensures Ptr(fs, i, n) != 0 ==> meta <= Ptr(fs, i, n) < |fs.used| && fs.used[Ptr(fs, i, n)]
    ensures meta <= b < |fs.used| && fs.used[b] ==> exists k: nat, w: nat :: Ptr(fs, k, w) == b
  {
    assert Ptr(fs, i, n) != 0 ==> Holds(own, Ptr(fs, i, n), i, n);
    assert Ptr(fs, j, m) != 0 ==> Holds(own, Ptr(fs, j, m), j, m);
    if meta <= b < |fs.used| && fs.used[b] {
      assert Ptr(fs, own[b].inum, own[b].n) == b;
    }
  }

  /** Slot `n` of inode `i` becomes `b` and no other slot changes. */
  ghost predicate SlotSet(fs: Fs, fs': Fs, i: nat, n: nat, b: nat) {
    forall j: nat, m: nat :: Ptr(fs', j, m) == if j == i && m == n then b else Ptr(fs, j, m)
  }

  /** Contents of block `n` of a file; a block the file does not have reads as zeroes. */
  function BlockOf(fs: Fs, i: nat, n: nat): Block {
    var p := Ptr(fs, i, n);
    if n < MAXFILE && 0 < p < |fs.data| then fs.data[p] else ZERO
  }

  ghost predicate SameBlocks(fs: Fs, fs': Fs) {
    forall j: nat, m: nat :: BlockOf(fs', j, m) == BlockOf(fs, j, m)
  }

  /** Block `b` is marked in use, zeroed and stored in slot `n` of inode `i`. */
  function Linked(fs: Fs, i: nat, n: nat, b: nat): Fs
    requires |fs.used| == |fs.data| && b < |fs.used|
    requires i in fs.inodes && |fs.inodes[i].addrs| == NDIRECT + 1
  {
    var ino := fs.inodes[i];
    var zeroed := fs.data[b := ZERO];
    if n < NDIRECT then
      Fs(fs.used[b := true], zeroed, fs.inodes[i := ino.(addrs := ino.addrs[n := b])])
    else if n >= INDIRECT then
      Fs(fs.used[b := true], zeroed, fs.inodes[i := ino.(addrs := ino.addrs[NDIRECT := b])])
    else if ino.addrs[NDIRECT] < |fs.data| then
      var ind := ino.addrs[NDIRECT];
      Fs(fs.used[b := true], zeroed[ind := PutWord(zeroed[ind], n - NDIRECT, b)], fs.inodes)
    else fs
  }

  /** A pointer of any file after a direct slot or the indirect block is linked. */
  lemma LinkInode(fs: Fs, own: map<nat, Slot>, meta: nat, i: nat, n: nat, b: nat, j: nat, m: nat)
    requires Owned(fs, own, meta) && i in fs.inodes && (n < NDIRECT || n == INDIRECT)
    requires b < |fs.used| && !fs.used[b] && Ptr(fs, i, n) == 0
    ensures Ptr(Linked(fs, i, n, b), j, m) == if j == i && m == n then b else Ptr(fs, j, m)
  {
    ZeroIsBlock();
    var p := Ptr(fs, j, INDIRECT);
    assert p != 0 ==> Holds(own, p, j, INDIRECT);
  }

  /** The same for an entry of the indirect block. */
  lemma LinkEntry(fs: Fs, own: map<nat, Slot>, meta: nat, i: nat, n: nat, b: nat, j: nat, m: nat)
    requires Owned(fs, own, meta) && i in fs.inodes && NDIRECT <= n < INDIRECT && Ptr(fs, i, INDIRECT) != 0
    requires b < |fs.used| && !fs.used[b] && Ptr(fs, i, n) == 0
    ensures Ptr(Linked(fs, i, n, b), j, m) == if j == i && m == n then b else Ptr(fs, j, m)
  {
    var p, q := Ptr(fs, j, INDIRECT), Ptr(fs, i, INDIRECT);
    assert p != 0 ==> Holds(own, p, j, INDIRECT);
    assert Holds(own, q, i, INDIRECT);
    PutGet(fs.data[q], n - NDIRECT, b, if m < NDIRECT then 0 else m - NDIRECT);
  }

  lemma LinkShape(fs: Fs, own: map<nat, Slot>, meta: nat, i: nat, n: nat, b: nat)
    requires Owned(fs, own, meta) && i in fs.inodes && n <= INDIRECT && b < |fs.used|
    requires NDIRECT <= n < INDIRECT ==> Ptr(fs, i, INDIRECT) != 0
    ensures Shape(Linked(fs, i, n, b))
  {
    ZeroIsBlock();
    if NDIRECT <= n < INDIRECT {
      var q := Ptr(fs, i, INDIRECT);
      assert Holds(own, q, i, INDIRECT);
      PutGet(fs.data[b := ZERO][q], n - NDIRECT, b, 0);
    }
  }

  lemma LinkSlots(fs: Fs, own: map<nat, Slot>, meta: nat, i: nat, n: nat, b: nat)
    requires Owned(fs, own, meta) && i in fs.inodes && n <= INDIRECT
    requires b < |fs.used| && !fs.used[b] && Ptr(fs, i, n) == 0
    requires NDIRECT <= n < INDIRECT ==> Ptr(fs, i, INDIRECT) != 0
    ensures SlotSet(fs, Linked(fs, i, n, b), i, n, b)
    ensures Shape(Linked(fs, i, n, b))
  {
    LinkShape(fs, own, meta, i, n, b);
    forall j: nat, m: nat ensures Ptr(Linked(fs, i, n, b), j, m) == if j == i && m == n then b else Ptr(fs, j, m) {
      if NDIRECT <= n < INDIRECT {
        LinkEntry(fs, own, meta, i, n, b, j, m);
      } else {
        LinkInode(fs, own, meta, i, n, b, j, m);
      }
    }
  }

  lemma OwnedGrows(fs: Fs, fs': Fs, own: map<nat, Slot>, meta: nat, i: nat, n: nat, b: nat)
    requires Owned(fs, own, meta) && b < |fs.used| && !fs.used[b] && Ptr(fs, i, n) == 0
    requires Shape(fs') && fs'.used == fs.used[b := true] && SlotSet(fs, fs', i, n, b)
    ensures Owned(fs', own[b := Slot(i, n)], meta)
  {
    var own' := own[b := Slot(i, n)];
    forall j: nat, m: nat | Ptr(fs', j, m) != 0
      ensures Holds(own', Ptr(fs', j, m), j, m)
    {
      if !(j == i && m == n) {
        assert Holds(own, Ptr(fs, j, m), j, m);
      }
    }
    forall c: nat | c in own'
      ensures meta <= c < |fs'.used| && Ptr(fs', own'[c].inum, own'[c].n) == c
    {
      if c != b {
        assert Ptr(fs, own[c].inum, own[c].n) == c;
      }
    }
  }

  /** Linking a free block keeps ownership. */
  lemma LinkOwned(fs: Fs, own: map<nat, Slot>, meta: nat, i: nat, n: nat, b: nat)
    requires Owned(fs, own, meta) && i in fs.inodes && n <= INDIRECT
    requires b < |fs.used| && !fs.used[b] && Ptr(fs, i, n) == 0
    requires NDIRECT <= n < INDIRECT ==> Ptr(fs, i, INDIRECT) != 0
    ensures Owned(Linked(fs, i, n, b), own[b := Slot(i, n)], meta)
  {
    LinkSlots(fs, own, meta, i, n, b);
    assert NDIRECT <= n < INDIRECT ==> Holds(own, Ptr(fs, i, INDIRECT), i, INDIRECT);
    OwnedGrows(fs, Linked(fs, i, n, b), own, meta, i, n, b);
  }

  lemma LinkBlocks(fs: Fs, own: map<nat, Slot>, meta: nat, i: nat, n: nat, b: nat)
    requires Owned(fs, own, meta) && i in fs.inodes && n <= INDIRECT
    requires b < |fs.used| && !fs.used[b] && Ptr(fs, i, n) == 0
    requires NDIRECT <= n < INDIRECT ==> Ptr(fs, i, INDIRECT) != 0
    ensures SameBlocks(fs, Linked(fs, i, n, b))
  {
    LinkSlots(fs, own, meta, i, n, b);
    var fs' := Linked(fs, i, n, b);
    forall j: nat, m: nat
      ensures BlockOf(fs', j, m) == BlockOf(fs, j, m)
    {
      assert Ptr(fs, j, m) != 0 ==> Holds(own, Ptr(fs, j, m), j, m);
      assert Ptr(fs, i, INDIRECT) != 0 ==> Holds(own, Ptr(fs, i, INDIRECT), i, INDIRECT);
    }
  }

  /** New contents for one data block of a file. */
  lemma WriteBlock(fs: Fs, own: map<nat, Slot>, meta: nat, i: nat, n: nat, blk: Block)
    requires Owned(fs, own, meta) && n < MAXFILE && Ptr(fs, i, n) != 0 && IsBlock(blk)
    ensures Ptr(fs, i, n) < |fs.data|
    ensures forall j: nat, m: nat :: Ptr(fs.(data := fs.data[Ptr(fs, i, n) := blk]), j, m) == Ptr(fs, j, m)
    ensures Owned(fs.(data := fs.data[Ptr(fs, i, n) := blk]), own, meta)
  {
    var p := Ptr(fs, i, n);
    assert Holds(own, p, i, n);
    var fs' := fs.(data := fs.data[p := blk]);
    forall j: nat, m: nat
      ensures Ptr(fs', j, m) == Ptr(fs, j, m)
    {
      assert Ptr(fs, j, INDIRECT) != 0 ==> Holds(own, Ptr(fs, j, INDIRECT), j, INDIRECT);
    }
    assert forall c: nat :: c in own ==> Ptr(fs', own[c].inum, own[c].n) == c;
    forall j: nat, m: nat | Ptr(fs', j, m) != 0
      ensures Holds(own, Ptr(fs', j, m), j, m)
    {
      assert Holds(own, Ptr(fs, j, m), j, m);
    }
  }

  lemma WriteBlockContents(fs: Fs, own: map<nat, Slot>, meta: nat, i: nat, n: nat, blk: Block, j: nat, m: nat)
    requires Owned(fs, own, meta) && n < MAXFILE && Ptr(fs, i, n) != 0 && IsBlock(blk)
    ensures Ptr(fs, i, n) < |fs.data|
    ensures BlockOf(fs.(data := fs.data[Ptr(fs, i, n) := blk]), j, m)
         == if j == i && m == n then blk else BlockOf(fs, j, m)
  {
    WriteBlock(fs, own, meta, i, n, blk);
    assert Holds(own, Ptr(fs, i, n), i, n);
    assert Ptr(fs, j, m) != 0 ==> Holds(own, Ptr(fs, j, m), j, m);
  }

  /** The bitmap after the blocks in slots below `n` of inode `i` were given back. */
  ghost predicate FreedTo(used: seq<bool>, was: seq<bool>, own: map<nat, Slot>, i: nat, n: nat) {
    && |used| == |was|
    && forall b: nat :: b < |was| ==> used[b] == (was[b] && !(b in own && own[b].inum == i && own[b].n < n))
  }

  /** The next slot is empty, or its block is still marked in use and can be given back. */
  lemma FreeNext(used: seq<bool>, fs: Fs, own: map<nat, Slot>, meta: nat, i: nat, n: nat)
    requires Owned(fs, own, meta) && FreedTo(used, fs.used, own, i, n)
    ensures Ptr(fs, i, n) == 0 ==> FreedTo(used, fs.used, own, i, n + 1)
    ensures Ptr(fs, i, n) != 0 ==> Ptr(fs, i, n) < |used| && used[Ptr(fs, i, n)]
    ensures Ptr(fs, i, n) != 0 ==> FreedTo(used[Ptr(fs, i, n) := false], fs.used, own, i, n + 1)
  {
    assert Ptr(fs, i, n) != 0 ==> Holds(own, Ptr(fs, i, n), i, n);
    assert forall b: nat :: b in own ==> Ptr(fs, own[b].inum, own[b].n) == b;
  }

  /** The bitmap without any block of inode `i`. */
  ghost predicate FreedAll(used: seq<bool>, was: seq<bool>, own: map<nat, Slot>, i: nat) {
    && |used| == |was|
    && forall b: nat :: b < |was| ==> used[b] == (was[b] && !(b in own && own[b].inum == i))
  }

  lemma NoneLeft(used: seq<bool>, fs: Fs, own: map<nat, Slot>, meta: nat, i: nat, n: nat)
    requires Owned(fs, own, meta) && FreedTo(used, fs.used, own, i, n)
    requires n == INDIRECT + 1 || (n == NDIRECT && Ptr(fs, i, INDIRECT) == 0)
    ensures FreedAll(used, fs.used, own, i)
  {
    forall b: nat | b < |used|
      ensures used[b] == (fs.used[b] && !(b in own && own[b].inum == i))
    {
      if b in own && own[b].inum == i {
        assert Ptr(fs, own[b].inum, own[b].n) == b;
      }
    }
  }

  function Others(own: map<nat, Slot>, i: nat): map<nat, Slot> {
    map b: nat | b in own && own[b].inum != i :: own[b]
  }

  /** The inode with no block left, and the bitmap without its blocks. */
  lemma EmptiedOwned(fs: Fs, fs': Fs, own: map<nat, Slot>, meta: nat, i: nat, ino: Inode)
    requires Owned(fs, own, meta) && i in fs.inodes
    requires |ino.addrs| == NDIRECT + 1 && forall n :: 0 <= n <= NDIRECT ==> ino.addrs[n] == 0
    requires fs'.data == fs.data && fs'.inodes == fs.inodes[i := ino] && FreedAll(fs'.used, fs.used, own, i)
    ensures Owned(fs', Others(own, i), meta)
    ensures forall j: nat, n: nat :: Ptr(fs', j, n) == if j == i then 0 else Ptr(fs, j, n)
  {
    var own' := Others(own, i);
    assert forall j: nat, n: nat :: Ptr(fs', j, n) == if j == i then 0 else Ptr(fs, j, n);
    forall j: nat, n: nat | Ptr(fs', j, n) != 0
      ensures Holds(own', Ptr(fs', j, n), j, n)
    {
      assert Holds(own, Ptr(fs, j, n), j, n);
    }
    forall c: nat | c in own'
      ensures meta <= c < |fs'.used| && Ptr(fs', own'[c].inum, own'[c].n) == c
    {
      assert Ptr(fs, own[c].inum, own[c].n) == c;
    }
  }
}
