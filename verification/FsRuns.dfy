/** Runs of the block and inode layer: any sequence of operations leaves a sound history in the log. */
module FsRuns {
  import opened FsDisk
  import opened FsOwner
  import opened FsFile
  import opened FsJournal
  import opened FsCode

  datatype Request = Put(i: nat, off: nat, n: nat, src: seq<nat>) | Truncate(i: nat) | Recycle(c: nat, v: Block)

  /** A file there is, and for a write a chunk of at most three blocks with its readable bytes. */
  ghost predicate Proper(inums: set<nat>, q: Request) {
    match q
    case Put(i, off, n, src) =>
      i in inums && off < WORD && |src| <= n <= 3072 && forall k :: 0 <= k < |src| ==> src[k] < 256
    case Truncate(i) => i in inums
    case Recycle(c, v) => IsBlock(v)
  }

  /** One operation. */
  method Perform(f: FileSystem, q: Request)
    requires f.Valid() && f.Idle() && Proper(f.fs.inodes.Keys, q) && !q.Recycle?
    modifies f
    ensures f.Valid() && f.Idle() && f.fs.inodes.Keys == old(f.fs.inodes.Keys)
    ensures f.jnl.start == Image(old(f.jnl)) && f.jnl.held == old(f.jnl).stale
  {
    match q
    case Put(i, off, n, src) =>
      ghost var seen, tx;
      var r;
      r, seen, tx := f.WriteOp(i, off, n, src);
    case Truncate(i) => f.TruncOp(i);
  }

  /**
   * Any sequence of operations, with buffers recycled in between.  The log goes through states each of which follows
   * from the one before by changing the one block written; those between operations are sound, and what is then not
   * logged is file data.
   */
  method Session(f: FileSystem, qs: seq<Request>) returns (ghost ops: seq<Op>)
    requires f.Valid() && f.Idle() && forall k :: 0 <= k < |qs| ==> Proper(f.fs.inodes.Keys, qs[k])
    modifies f
    ensures f.Valid() && f.Idle()
    ensures var base, stale := Image(old(f.jnl)), old(f.jnl).stale;
      && SoundHistory(f.lay, base, stale, ops)
      && StateAfter(base, ops) == Image(f.jnl) && StaleAfter(stale, ops) == f.jnl.stale
  {
    ops := [];
    ghost var base, stale, inums := Image(f.jnl), f.jnl.stale, f.fs.inodes.Keys;
    ImageSound(f.lay, f.jnl, f.fs, f.own);
    StaleLoose(f.lay, f.jnl, f.fs, f.own);
    var k := 0;
    while k < |qs|
      invariant f.Valid() && f.Idle() && f.fs.inodes.Keys == inums && k <= |qs|
      invariant SoundHistory(f.lay, base, stale, ops)
      invariant StateAfter(base, ops) == Image(f.jnl) && StaleAfter(stale, ops) == f.jnl.stale
    {
      if qs[k].Recycle? {
        f.Recycle(qs[k].c, qs[k].v);
      } else {
        Perform(f, qs[k]);
        HistoryGrows(f.lay, base, stale, ops, f.jnl, f.fs, f.own);
        ops := ops + [Op(f.jnl.writes, f.jnl.stale)];
      }
      k := k + 1;
    }
  }
}
