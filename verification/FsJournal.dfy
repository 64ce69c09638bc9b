/**
 * What the log holds of the file system.  Every `log_write` copies one block of the in-memory state;
 * the journal follows these copies and shows the states the log goes through.
 */
module FsJournal {
  import opened FsDisk
  import opened FsOwner
  import opened FsFile

  const BPB := 8192
  const IPB := 16

  /** First inode block, first bitmap block, first data block. */
  datatype Layout = Layout(inodestart: nat, bmapstart: nat, meta: nat)

  function BitmapBlock(lay: Layout, b: nat): nat {
    b / BPB + lay.bmapstart
  }

  function InodeBlock(lay: Layout, i: nat): nat {
    i / IPB + lay.inodestart
  }

  ghost predicate SameInode(f: Fs, f': Fs, i: nat) {
    (i in f.inodes <==> i in f'.inodes) && (i in f.inodes ==> f'.inodes[i] == f.inodes[i])
  }

  /** Block `c` holds the same in both: inodes, bits of the bitmap, or data. */
  ghost predicate SamePart(lay: Layout, f: Fs, f': Fs, c: nat)
    requires |f.used| == |f'.used| && |f.data| == |f'.data|
  {
    if c < lay.bmapstart then forall i: nat :: InodeBlock(lay, i) == c ==> SameInode(f, f', i)
    else if c < lay.meta then forall b: nat :: b < |f.used| && BitmapBlock(lay, b) == c ==> f'.used[b] == f.used[b]
    else c < |f.data| ==> f'.data[c] == f.data[c]
  }

  /** The regions lie in order, and hold all inodes and all bits. */
  ghost predicate Fits(lay: Layout, f: Fs) {
    && |f.used| == |f.data| && lay.inodestart <= lay.bmapstart
    && (forall i: nat {:trigger InodeBlock(lay, i)} :: i in f.inodes ==> InodeBlock(lay, i) < lay.bmapstart)
    && 0 < lay.meta <= |f.used| && BitmapBlock(lay, |f.used| - 1) < lay.meta
  }

  /** One `log_write`: the block, and the file system in the log after it. */
  datatype Write = Write(block: nat, image: Fs)

  function Last(f: Fs, ws: seq<Write>): Fs {
    if ws == [] then f else ws[|ws| - 1].image
  }

  /** Only the contents of block `c` change. */
  ghost predicate Changes(lay: Layout, f: Fs, f': Fs, c: nat) {
    && |f'.used| == |f.used| && |f'.data| == |f.data| && lay.inodestart <= c < |f.data|
    && forall d: nat :: d != c ==> SamePart(lay, f, f', d)
  }

  /** Each write changes the block it names and no other. */
  ghost predicate Chain(lay: Layout, f: Fs, ws: seq<Write>) {
    ws == [] ||
      var n := |ws| - 1;
      Chain(lay, f, ws[..n]) && Changes(lay, Last(f, ws[..n]), ws[n].image, ws[n].block)
  }

  function Blocks(ws: seq<Write>): set<nat> {
    if ws == [] then {} else Blocks(ws[..|ws| - 1]) + {ws[|ws| - 1].block}
  }

  /** What an operation logs, and the blocks that are changed and not logged when it ends. */
  datatype Op = Op(writes: seq<Write>, stale: set<nat>)

  /** The file system in the log after whole operations. */
  function StateAfter(f: Fs, ops: seq<Op>): Fs {
    if ops == [] then f else Last(StateAfter(f, ops[..|ops| - 1]), ops[|ops| - 1].writes)
  }

  function StaleAfter(stale: set<nat>, ops: seq<Op>): set<nat> {
    if ops == [] then stale else ops[|ops| - 1].stale
  }

  /** A state the block and inode layer may be in between operations. */
  ghost predicate Sound(lay: Layout, f: Fs) {
    Fits(lay, f) && HoleFree(f) && exists own :: Owned(f, own, lay.meta)
  }

  /** No pointer of any file is kept in block `c`. */
  ghost predicate Loose(lay: Layout, f: Fs, c: nat) {
    lay.meta <= c < |f.data| && forall i: nat :: Ptr(f, i, INDIRECT) != c
  }

  /** A block stays changed and not logged until it is logged. */
  ghost predicate Carried(stale: set<nat>, op: Op) {
    forall c :: c in stale ==> c in op.stale || c in Blocks(op.writes)
  }

  /**
   * The writes of each operation start where the one before ended.  Every end is sound, and what is not logged
   * there is file data.
   */
  ghost predicate SoundHistory(lay: Layout, f: Fs, stale: set<nat>, ops: seq<Op>) {
    && Sound(lay, StateAfter(f, ops))
    && (forall c :: c in StaleAfter(stale, ops) ==> Loose(lay, StateAfter(f, ops), c))
    && (ops != [] ==>
          var n := |ops| - 1;
          && SoundHistory(lay, f, stale, ops[..n])
          && Chain(lay, StateAfter(f, ops[..n]), ops[n].writes) && Carried(StaleAfter(stale, ops[..n]), ops[n]))
  }

  /**
   * Where the operation under way began, its writes, the blocks changed since they were last logged, and which of
   * these there were at its start.
   */
  datatype Journal = Journal(start: Fs, writes: seq<Write>, stale: set<nat>, held: set<nat>)

  /** The file system in the log. */
  function Image(j: Journal): Fs {
    Last(j.start, j.writes)
  }

  function BeginOp(j: Journal): Journal {
    Journal(Image(j), [], j.stale, j.stale)
  }

  predicate SameOp(j: Journal, j': Journal) {
    j'.start == j.start && j'.held == j.held
  }

  function Logged(j: Journal, c: nat, f: Fs): Journal {
    j.(writes := j.writes + [Write(c, f)])
  }

  function LogBit(lay: Layout, j: Journal, b: nat, v: bool): Journal {
    var f := Image(j);
    if b < |f.used| then Logged(j, BitmapBlock(lay, b), f.(used := f.used[b := v])) else j
  }

  function LogBlock(j: Journal, c: nat, v: Block): Journal {
    var f := Image(j);
    if c < |f.data| then Logged(j, c, f.(data := f.data[c := v])).(stale := j.stale - {c}) else j
  }

  function LogInode(lay: Layout, j: Journal, i: nat, ino: Inode): Journal {
    var f := Image(j);
    Logged(j, InodeBlock(lay, i), f.(inodes := f.inodes[i := ino]))
  }

  /** Logged and current block `c` agree unless stale; stale blocks hold file data. */
  ghost predicate Agrees(f: Fs, fs: Fs, own: map<nat, Slot>, stale: set<nat>, c: nat) {
    c < |f.data| && c < |fs.data| ==>
      && IsBlock(f.data[c])
      && if c in stale then c in own ==> own[c].n < INDIRECT else f.data[c] == fs.data[c]
  }

  ghost predicate Follows(lay: Layout, j: Journal, fs: Fs, own: map<nat, Slot>) {
    && Chain(lay, j.start, j.writes) && Fits(lay, fs)
    && var f := Image(j);
      && f.used == fs.used && |f.data| == |fs.data|
      && (forall c :: c in j.stale ==> lay.meta <= c < |fs.data|) && Carried(j.held, Op(j.writes, j.stale))
      && forall c: nat {:trigger Agrees(f, fs, own, j.stale, c)} :: Agrees(f, fs, own, j.stale, c)
  }

  /** Only inode `i` may differ from its logged form. */
  ghost predicate InodesBut(f: Fs, fs: Fs, i: nat) {
    i in f.inodes && i in fs.inodes && fs.inodes == f.inodes[i := fs.inodes[i]]
  }

  /** Inside an operation on inode `i`. */
  ghost predicate Within(lay: Layout, j: Journal, fs: Fs, own: map<nat, Slot>, i: nat) {
    Follows(lay, j, fs, own) && InodesBut(Image(j), fs, i)
  }

  /** Between operations. */
  ghost predicate Settled(lay: Layout, j: Journal, fs: Fs, own: map<nat, Slot>) {
    Follows(lay, j, fs, own) && Image(j).inodes == fs.inodes
  }

  // ----- each way to log a block

  lemma ChainOn(lay: Layout, f: Fs, ws: seq<Write>, w: Write)
    requires Chain(lay, f, ws) && Changes(lay, Last(f, ws), w.image, w.block)
    ensures Chain(lay, f, ws + [w]) && Last(f, ws + [w]) == w.image && Blocks(ws + [w]) == Blocks(ws) + {w.block}
  {
    var t := ws + [w];
    assert t[..|t| - 1] == ws;
  }

  lemma BitChanges(lay: Layout, f: Fs, b: nat, v: bool)
    requires Fits(lay, f) && b < |f.used|
    ensures Changes(lay, f, f.(used := f.used[b := v]), BitmapBlock(lay, b))
  {
    assert b / BPB <= (|f.used| - 1) / BPB;
  }

  lemma BlockChanges(lay: Layout, f: Fs, c: nat, v: Block)
    requires Fits(lay, f) && lay.meta <= c < |f.data|
    ensures Changes(lay, f, f.(data := f.data[c := v]), c)
  {
    assert lay.bmapstart <= BitmapBlock(lay, |f.used| - 1);
  }

  lemma InodeChanges(lay: Layout, f: Fs, i: nat, ino: Inode)
    requires Fits(lay, f) && i in f.inodes
    ensures Changes(lay, f, f.(inodes := f.inodes[i := ino]), InodeBlock(lay, i))
  {
    assert lay.bmapstart <= BitmapBlock(lay, |f.used| - 1);
  }

  /** The logged state has the same shape. */
  lemma ImageFits(lay: Layout, j: Journal, fs: Fs, own: map<nat, Slot>, i: nat)
    requires Within(lay, j, fs, own, i)
    ensures Fits(lay, Image(j))
  {
  }

  lemma FollowsBit(lay: Layout, j: Journal, fs: Fs, own: map<nat, Slot>, i: nat, b: nat, v: bool)
    requires Within(lay, j, fs, own, i) && b < |fs.used|
    ensures Within(lay, LogBit(lay, j, b, v), fs.(used := fs.used[b := v]), own, i)
  {
    var f, fs' := Image(j), fs.(used := fs.used[b := v]);
    var f' := f.(used := f.used[b := v]);
    ImageFits(lay, j, fs, own, i);
    BitChanges(lay, f, b, v);
    ChainOn(lay, j.start, j.writes, Write(BitmapBlock(lay, b), f'));
    forall c: nat ensures Agrees(f', fs', own, j.stale, c) {
      assert Agrees(f, fs, own, j.stale, c);
    }
  }

  lemma FollowsBlock(lay: Layout, j: Journal, fs: Fs, own: map<nat, Slot>, i: nat, c: nat, v: Block)
    requires Within(lay, j, fs, own, i) && lay.meta <= c < |fs.data| && IsBlock(v)
    ensures Within(lay, LogBlock(j, c, v), fs.(data := fs.data[c := v]), own, i)
  {
    var f, fs' := Image(j), fs.(data := fs.data[c := v]);
    var f' := f.(data := f.data[c := v]);
    ImageFits(lay, j, fs, own, i);
    BlockChanges(lay, f, c, v);
    ChainOn(lay, j.start, j.writes, Write(c, f'));
    forall d: nat ensures Agrees(f', fs', own, j.stale - {c}, d) {
      assert Agrees(f, fs, own, j.stale, d);
    }
  }

  /** A block copied into and not logged. */
  lemma FollowsCopy(lay: Layout, j: Journal, fs: Fs, own: map<nat, Slot>, i: nat, c: nat, v: Block)
    requires Within(lay, j, fs, own, i) && lay.meta <= c < |fs.data| && c in own && own[c].n < INDIRECT
    ensures Within(lay, j.(stale := j.stale + {c}), fs.(data := fs.data[c := v]), own, i)
  {
    var f, fs' := Image(j), fs.(data := fs.data[c := v]);
    forall d: nat ensures Agrees(f, fs', own, j.stale + {c}, d) {
      assert Agrees(f, fs, own, j.stale, d);
    }
  }

  /** An inode changed in memory. */
  lemma FollowsInode(lay: Layout, j: Journal, fs: Fs, own: map<nat, Slot>, i: nat, ino: Inode)
    requires Within(lay, j, fs, own, i)
    ensures Within(lay, j, fs.(inodes := fs.inodes[i := ino]), own, i)
  {
    var f, fs' := Image(j), fs.(inodes := fs.inodes[i := ino]);
    forall d: nat ensures Agrees(f, fs', own, j.stale, d) {
      assert Agrees(f, fs, own, j.stale, d);
    }
  }

  /** A new owner for a block that is not stale. */
  lemma FollowsOwner(lay: Layout, j: Journal, fs: Fs, own: map<nat, Slot>, i: nat, r: nat, slot: Slot)
    requires Within(lay, j, fs, own, i) && r !in j.stale
    ensures Within(lay, j, fs, own[r := slot], i)
  {
    var f, own' := Image(j), own[r := slot];
    forall d: nat ensures Agrees(f, fs, own', j.stale, d) {
      assert Agrees(f, fs, own, j.stale, d);
    }
  }

  lemma FollowsFewer(lay: Layout, j: Journal, fs: Fs, own: map<nat, Slot>, own': map<nat, Slot>, i: nat)
    requires Within(lay, j, fs, own, i) && forall c :: c in own' ==> c in own && own'[c] == own[c]
    ensures Within(lay, j, fs, own', i)
  {
    var f := Image(j);
    forall d: nat ensures Agrees(f, fs, own', j.stale, d) {
      assert Agrees(f, fs, own, j.stale, d);
    }
  }

  /** After `iupdate` the logged inodes are the current ones. */
  lemma FollowsUpdate(lay: Layout, j: Journal, fs: Fs, own: map<nat, Slot>, i: nat)
    requires Within(lay, j, fs, own, i)
    ensures Within(lay, LogInode(lay, j, i, fs.inodes[i]), fs, own, i)
    ensures Image(LogInode(lay, j, i, fs.inodes[i])).inodes == fs.inodes
  {
    var f := Image(j);
    var f' := f.(inodes := f.inodes[i := fs.inodes[i]]);
    ImageFits(lay, j, fs, own, i);
    InodeChanges(lay, f, i, fs.inodes[i]);
    ChainOn(lay, j.start, j.writes, Write(InodeBlock(lay, i), f'));
    forall d: nat ensures Agrees(f', fs, own, j.stale, d) {
      assert Agrees(f, fs, own, j.stale, d);
    }
  }

  /** The blocks logged when `b` is allocated for slot `n`. */
  function LogLink(lay: Layout, j: Journal, fs: Fs, i: nat, n: nat, b: nat): Journal
    requires b < |fs.data| && i in fs.inodes && |fs.inodes[i].addrs| == NDIRECT + 1
  {
    var k := LogBlock(LogBit(lay, j, b, true), b, ZERO);
    var ind := fs.inodes[i].addrs[NDIRECT];
    if NDIRECT <= n < INDIRECT && ind < |fs.data|
    then LogBlock(k, ind, PutWord(fs.data[b := ZERO][ind], n - NDIRECT, b))
    else k
  }

  lemma FollowsLink(lay: Layout, j: Journal, fs: Fs, own: map<nat, Slot>, i: nat, n: nat, b: nat)
    requires Within(lay, j, fs, own, i) && Owned(fs, own, lay.meta) && n <= INDIRECT && b < |fs.used| && !fs.used[b]
    requires NDIRECT <= n < INDIRECT ==> Ptr(fs, i, INDIRECT) != 0
    ensures Within(lay, LogLink(lay, j, fs, i, n, b), Linked(fs, i, n, b), own[b := Slot(i, n)], i)
  {
    var j1, fs1 := LogBit(lay, j, b, true), fs.(used := fs.used[b := true]);
    FollowsBit(lay, j, fs, own, i, b, true);
    ZeroIsBlock();
    var j2, fs2 := LogBlock(j1, b, ZERO), fs1.(data := fs1.data[b := ZERO]);
    FollowsBlock(lay, j1, fs1, own, i, b, ZERO);
    var fs3, ino := Linked(fs, i, n, b), fs.inodes[i];
    FollowsOwner(lay, j2, fs2, own, i, b, Slot(i, n));
    if NDIRECT <= n < INDIRECT {
      var ind := ino.addrs[NDIRECT];
      assert Holds(own, ind, i, INDIRECT);
      var v := PutWord(fs2.data[ind], n - NDIRECT, b);
      PutGet(fs2.data[ind], n - NDIRECT, b, 0);
      assert fs3 == fs2.(data := fs2.data[ind := v]);
      FollowsBlock(lay, j2, fs2, own[b := Slot(i, n)], i, ind, v);
    } else {
      assert fs3 == fs2.(inodes := fs2.inodes[i := fs3.inodes[i]]);
      FollowsInode(lay, j2, fs2, own[b := Slot(i, n)], i, fs3.inodes[i]);
    }
  }

  // ----- whole operations

  lemma BeginWithin(lay: Layout, j: Journal, fs: Fs, own: map<nat, Slot>, i: nat)
    requires Settled(lay, j, fs, own) && i in fs.inodes
    ensures Settled(lay, BeginOp(j), fs, own) && Within(lay, BeginOp(j), fs, own, i)
  {
    var f := Image(j);
    forall c: nat ensures Agrees(f, fs, own, j.stale, c) {
    }
  }

  /** The logged state is sound: stale blocks hold file data, so all pointers are the current ones. */
  lemma ImageSound(lay: Layout, j: Journal, fs: Fs, own: map<nat, Slot>)
    requires Follows(lay, j, fs, own) && Image(j).inodes == fs.inodes && Owned(fs, own, lay.meta) && HoleFree(fs)
    ensures Sound(lay, Image(j))
  {
    AgreeingOwned(lay, Image(j), fs, own, j.stale);
    assert Owned(Image(j), own, lay.meta);
  }

  lemma AgreeingOwned(lay: Layout, f: Fs, fs: Fs, own: map<nat, Slot>, stale: set<nat>)
    requires f.inodes == fs.inodes && f.used == fs.used && |f.data| == |fs.data|
    requires Owned(fs, own, lay.meta) && HoleFree(fs)
    requires forall c: nat {:trigger Agrees(f, fs, own, stale, c)} :: Agrees(f, fs, own, stale, c)
    ensures Owned(f, own, lay.meta) && HoleFree(f)
  {
    forall i: nat, n: nat ensures Ptr(f, i, n) == Ptr(fs, i, n) {
      SamePtr(lay, f, fs, own, stale, i, n);
    }
    forall c | 0 <= c < |f.data| ensures IsBlock(f.data[c]) {
      assert Agrees(f, fs, own, stale, c);
    }
    forall i: nat, n: nat | Ptr(f, i, n) != 0 ensures Holds(own, Ptr(f, i, n), i, n) {
      assert Holds(own, Ptr(fs, i, n), i, n);
    }
    KeepsHoleFree(fs, f);
  }

  lemma SamePtr(lay: Layout, f: Fs, fs: Fs, own: map<nat, Slot>, stale: set<nat>, i: nat, n: nat)
    requires f.inodes == fs.inodes && |f.data| == |fs.data| && Owned(fs, own, lay.meta)
    requires forall c: nat {:trigger Agrees(f, fs, own, stale, c)} :: Agrees(f, fs, own, stale, c)
    ensures Ptr(f, i, n) == Ptr(fs, i, n)
  {
    var p := Ptr(fs, i, INDIRECT);
    if p != 0 {
      assert Holds(own, p, i, INDIRECT);
      assert Agrees(f, fs, own, stale, p);
    }
  }

  /** A changed block that was not logged may get any other contents. */
  lemma RecycleSettled(lay: Layout, j: Journal, fs: Fs, own: map<nat, Slot>, c: nat, v: Block)
    requires Settled(lay, j, fs, own) && Owned(fs, own, lay.meta) && HoleFree(fs) && c in j.stale && IsBlock(v)
    ensures c < |fs.data|
    ensures var fs' := fs.(data := fs.data[c := v]);
      Settled(lay, j, fs', own) && Owned(fs', own, lay.meta) && HoleFree(fs') && SamePtrs(fs, fs')
  {
    var f, fs', one := Image(j), fs.(data := fs.data[c := v]), {c};
    assert Agrees(f, fs, own, j.stale, c);
    forall d: nat ensures Agrees(fs', fs, own, one, d) {
    }
    AgreeingOwned(lay, fs', fs, own, one);
    forall i: nat, n: nat ensures Ptr(fs', i, n) == Ptr(fs, i, n) {
      SamePtr(lay, fs', fs, own, one, i, n);
    }
    forall d: nat ensures Agrees(f, fs', own, j.stale, d) {
      assert Agrees(f, fs, own, j.stale, d);
    }
  }

  /** An operation that starts where a sound history ends, and ends in a valid state, extends it. */
  lemma HistoryGrows(lay: Layout, f: Fs, stale: set<nat>, ops: seq<Op>, j: Journal, fs: Fs, own: map<nat, Slot>)
    requires SoundHistory(lay, f, stale, ops) && StateAfter(f, ops) == j.start && StaleAfter(stale, ops) == j.held
    requires Settled(lay, j, fs, own) && Owned(fs, own, lay.meta) && HoleFree(fs)
    ensures var t := ops + [Op(j.writes, j.stale)];
      SoundHistory(lay, f, stale, t) && StateAfter(f, t) == Image(j) && StaleAfter(stale, t) == j.stale
  {
    ImageSound(lay, j, fs, own);
    StaleLoose(lay, j, fs, own);
    var t := ops + [Op(j.writes, j.stale)];
    assert t[..|t| - 1] == ops;
  }

  lemma StaleLoose(lay: Layout, j: Journal, fs: Fs, own: map<nat, Slot>)
    requires Settled(lay, j, fs, own) && Owned(fs, own, lay.meta)
    ensures forall c :: c in j.stale ==> Loose(lay, Image(j), c)
  {
    var f := Image(j);
    forall c, i: nat | c in j.stale ensures Ptr(f, i, INDIRECT) != c {
      var p := Ptr(fs, i, INDIRECT);
      assert Ptr(f, i, INDIRECT) == p;
      assert p != 0 ==> Holds(own, p, i, INDIRECT);
      assert Agrees(f, fs, own, j.stale, c);
    }
  }

  /** A sound state stays sound when other bytes get into blocks that hold no pointers. */
  lemma LooseSound(lay: Layout, f: Fs, g: Fs)
    requires Sound(lay, f) && g.used == f.used && g.inodes == f.inodes && |g.data| == |f.data|
    requires forall c :: 0 <= c < |f.data| ==> IsBlock(g.data[c]) && (g.data[c] == f.data[c] || Loose(lay, f, c))
    ensures Sound(lay, g)
  {
    var own: map<nat, Slot> :| Owned(f, own, lay.meta);
    var stale := set c | 0 <= c < |f.data| && g.data[c] != f.data[c];
    forall c: nat ensures Agrees(g, f, own, stale, c) {
      if c in stale && c in own {
        assert Ptr(f, own[c].inum, own[c].n) == c;
      }
    }
    AgreeingOwned(lay, g, f, own, stale);
    assert Owned(g, own, lay.meta);
  }

  /** Every earlier point between operations is sound. */
  lemma {:induction false} SoundBefore(lay: Layout, f: Fs, stale: set<nat>, ops: seq<Op>, k: nat)
    requires SoundHistory(lay, f, stale, ops) && k <= |ops|
    ensures SoundHistory(lay, f, stale, ops[..k])
    decreases |ops|
  {
    if k == |ops| {
      assert ops[..k] == ops;
    } else {
      var t := ops[..|ops| - 1];
      assert t[..k] == ops[..k];
      SoundBefore(lay, f, stale, t, k);
    }
  }
}
