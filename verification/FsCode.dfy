/** Block and inode layer of kernel/fs.c, as methods over the bitmap, the inodes and the cached blocks. */
module FsCode {
  import opened FsDisk
  import opened FsOwner
  import opened FsFile
  import opened FsJournal
  import opened FiniteSets
  import opened Zeros
  import LogMachine

  /** Everything logged since `lg0` is the data block, the indirect block or one of `maps`. */
  ghost predicate LogsOnly(lg0: set<nat>, lg: set<nat>, data: nat, ind: nat, maps: set<nat>) {
    forall c: nat :: c in lg ==> c in lg0 || c in maps || (c != 0 && (c == data || c == ind))
  }

  datatype Outcome = Full | Fault | Done

  /** Data blocks and bitmap blocks that one write logs. */
  datatype Tx = Tx(data: set<nat>, maps: set<nat>)

  /** A number of bytes as whole blocks and the rest. */
  method Divide(x: nat) returns (bn: nat, o: nat)
    ensures x == bn * 1024 + o && o < BSIZE
  {
    bn, o := BlockNo(x), Offset(x);
  }

  /** Why a write stopped short: in the chunk at `tot` the source is unreadable, or there is no block for it. */
  ghost predicate Stopped(fs: Fs, i: nat, off: nat, n: nat, src: seq<nat>, tot: nat, seen: nat, bn: nat, o: nat) {
    && tot < n && off + tot == bn * 1024 + o && o < BSIZE && (tot == 0 || o == 0)
    && if Ptr(fs, i, bn) != 0 then |src| < tot + Chunk(o, n - tot) && seen == |src|
       else seen == tot && forall c :: 0 <= c < |fs.used| ==> fs.used[c]
  }

  /** What one turn of a write logs: its data block, the indirect block and the bitmap blocks of new blocks. */
  ghost predicate Charged(lg: set<nat>, lg': set<nat>, fs: Fs, fs': Fs, i: nat, bn: nat, maps: set<nat>) {
    && LogsOnly(lg, lg', Ptr(fs', i, bn), Ptr(fs', i, INDIRECT), maps)
    && (Ptr(fs, i, INDIRECT) != 0 ==> Ptr(fs', i, INDIRECT) == Ptr(fs, i, INDIRECT))
    && |maps| <= (if Ptr(fs, i, bn) == 0 then 1 else 0)
               + (if Ptr(fs, i, INDIRECT) == 0 && Ptr(fs', i, INDIRECT) != 0 then 1 else 0)
  }

  /** What one turn of a write of `bytes`, the readable part of `m` bytes at `off`, leaves. */
  ghost predicate Turned(fs: Fs, fs': Fs, i: nat, bn: nat, off: nat, m: nat, bytes: seq<nat>, got: seq<nat>,
                         res: Outcome) {
    && SameSizes(fs, fs') && Keeps(fs, fs')
    && res.Full? == (Ptr(fs', i, bn) == 0)
    && (res.Full? ==> forall c :: 0 <= c < |fs'.used| ==> fs'.used[c])
    && (!res.Full? ==> res.Fault? == (|bytes| < m))
    && got == (if res.Full? then [] else bytes) && Spliced(fs, fs', i, off, got)
  }

  /** What a write has logged after `t` blocks: the first block is no new one when it existed before. */
  ghost predicate Accounts(lg0: set<nat>, lg: set<nat>, fs0: Fs, fs: Fs, i: nat, bn: nat, t: nat, tx: Tx) {
    && (forall c: nat :: c in lg ==> c in lg0 || c in tx.data || c in tx.maps || (c != 0 && c == Ptr(fs, i, INDIRECT)))
    && |tx.data| <= t
    && |tx.maps| <= t - (if t > 0 && Ptr(fs0, i, bn) != 0 then 1 else 0)
                      + (if Ptr(fs0, i, INDIRECT) == 0 && Ptr(fs, i, INDIRECT) != 0 then 1 else 0)
  }

  /** One more block: at most one data block and one bitmap block, and one for a new indirect block. */
  lemma AccountsNext(lg0: set<nat>, lg: set<nat>, lg': set<nat>, fs0: Fs, fs: Fs, fs': Fs, i: nat, bn0: nat, t: nat,
                     tx: Tx, maps: set<nat>, bn: nat)
    returns (tx': Tx)
    requires Accounts(lg0, lg, fs0, fs, i, bn0, t, tx)
    requires Ptr(fs0, i, INDIRECT) != 0 ==> Ptr(fs, i, INDIRECT) == Ptr(fs0, i, INDIRECT)
    requires t == 0 ==> bn == bn0 && fs == fs0
    requires Charged(lg, lg', fs, fs', i, bn, maps)
    ensures Accounts(lg0, lg', fs0, fs', i, bn0, t + 1, tx')
  {
    tx' := Tx(tx.data + {Ptr(fs', i, bn)}, tx.maps + maps);
    UnionSize(tx.data, {Ptr(fs', i, bn)});
    UnionSize(tx.maps, maps);
  }

  /** Where a write ends: everything written, or the chunk at `tot` unreadable, or no block for it. */
  ghost predicate Ended(fs: Fs, i: nat, off: nat, n: nat, src: seq<nat>, tot: nat, seen: nat) {
    && tot <= Whole(off, n, |src|)
    && if tot == n then seen == n
       else if Ptr(fs, i, BlockNo(off + tot)) != 0 then tot == Whole(off, n, |src|) && seen == |src|
       else seen == tot && forall c :: 0 <= c < |fs.used| ==> fs.used[c]
  }

  /** The blocks one write logs, with the inode's. */
  ghost predicate LoggedBy(lg0: set<nat>, lg: set<nat>, fs0: Fs, fs: Fs, i: nat, off: nat, n: nat, t: nat, tx: Tx,
                           inodeBlock: nat) {
    && (t > 0 ==> (t - 1) * 1024 < Offset(off) + n)
    && Accounts(lg0, lg - {inodeBlock}, fs0, fs, i, BlockNo(off), t, tx)
  }

  lemma StillCharged(lg0: set<nat>, lg1: set<nat>, lg: set<nat>, fs0: Fs, fs1: Fs, fs: Fs, i: nat, off: nat, n: nat,
                     t: nat, tx: Tx, inodeBlock: nat)
    requires (t > 0 ==> (t - 1) * 1024 < Offset(off) + n) && Accounts(lg0, lg1, fs0, fs1, i, BlockNo(off), t, tx)
    requires SamePtrs(fs1, fs) && lg == lg1 + {inodeBlock}
    ensures LoggedBy(lg0, lg, fs0, fs, i, off, n, t, tx, inodeBlock)
  {
  }

  lemma StillEnded(fs1: Fs, fs: Fs, i: nat, off: nat, n: nat, src: seq<nat>, tot: nat, seen: nat)
    requires Ended(fs1, i, off, n, src, tot, seen) && SamePtrs(fs1, fs) && fs.used == fs1.used
    ensures Ended(fs, i, off, n, src, tot, seen)
  {
  }

  lemma LoopEnded(fs: Fs, i: nat, off: nat, n: nat, src: seq<nat>, tot: nat, seen: nat, bn: nat, o: nat)
    requires tot <= n && (tot == n ==> seen == n) && tot <= seen <= |src| <= n
    requires tot < n ==> Stopped(fs, i, off, n, src, tot, seen, bn, o)
    ensures Ended(fs, i, off, n, src, tot, seen)
  {
    assert tot < n ==> bn == BlockNo(off + tot) && o == Offset(off + tot);
    if tot < n && |src| < n {
      StopsAtWhole(off, n, tot, |src|);
    }
  }

  /** The new size changes none of what the loop has established. */
  lemma SpanDone(lg0: set<nat>, lg1: set<nat>, lg: set<nat>, fs0: Fs, fs1: Fs, fs: Fs, i: nat, off: nat, n: nat,
                 src: seq<nat>, stored: seq<nat>, t: nat, tx: Tx, ib: nat, tot: nat, seen: nat)
    requires (t > 0 ==> (t - 1) * 1024 < Offset(off) + n) && Accounts(lg0, lg1, fs0, fs1, i, BlockNo(off), t, tx)
    requires SamePtrs(fs1, fs) && lg == lg1 + {ib} && fs.used == fs1.used && Spliced(fs1, fs, i, 0, [])
    requires Spliced(fs0, fs1, i, off, stored) && Keeps(fs0, fs1) && Ended(fs1, i, off, n, src, tot, seen)
    ensures LoggedBy(lg0, lg, fs0, fs, i, off, n, t, tx, ib) && Ended(fs, i, off, n, src, tot, seen)
    ensures Spliced(fs0, fs, i, off, stored) && Keeps(fs0, fs)
  {
    SplicedSize(fs0, fs1, fs, i, off, stored);
    KeepsSame(fs0, fs1, fs);
    StillCharged(lg0, lg1, lg, fs0, fs1, fs, i, off, n, t, tx, ib);
    StillEnded(fs1, fs, i, off, n, src, tot, seen);
  }

  /** `got` is a stretch of `src` from `tot` on. */
  ghost predicate SliceOf(src: seq<nat>, tot: nat, got: seq<nat>) {
    tot + |got| <= |src| && got == src[tot..tot + |got|]
  }

  /** The readable part of the next `m` bytes of the source. */
  method Readable(src: seq<nat>, tot: nat, m: nat) returns (bytes: seq<nat>)
    requires tot <= |src| && forall k :: 0 <= k < |src| ==> src[k] < 256
    ensures |bytes| == Min(m, |src| - tot) && SliceOf(src, tot, bytes)
    ensures forall k :: 0 <= k < |bytes| ==> bytes[k] < 256
  {
    bytes := src[tot..tot + Min(m, |src| - tot)];
  }

  ghost predicate Stepped(fs0: Fs, fs: Fs, i: nat, off: nat, n: nat, src: seq<nat>, tot: nat, seen: nat, bn: nat,
                          o: nat, res: Outcome)
    requires o < BSIZE && tot <= n
  {
    if res.Done? then seen == tot + Chunk(o, n - tot) && Progress(fs0, fs, i, off, src, seen, seen)
    else Progress(fs0, fs, i, off, src, tot, seen) && Stopped(fs, i, off, n, src, tot, seen, bn, o)
  }

  /** What one chunk does: nothing on an error, else its stored bytes and the size; other files keep theirs. */
  ghost predicate OpDone(fs: Fs, fs': Fs, i: nat, off: nat, src: seq<nat>, r: int, seen: nat) {
    && OtherSizes(fs, fs', i) && i in fs.inodes
    && if r == -1 then fs' == fs
       else && 0 <= r <= seen <= |src| && Spliced(fs, fs', i, off, src[..seen])
            && off <= fs.inodes[i].size && fs'.inodes[i].size == Max(fs.inodes[i].size, off + r)
  }

  /** One more chunk, `k` bytes into the request. */
  lemma FileNext(fs0: Fs, fs1: Fs, fs: Fs, i: nat, off: nat, src: seq<nat>, k: nat, part: seq<nat>, r: int, more: nat)
    requires FileSoFar(fs0, fs1, i, off, src, k, k) && SliceOf(src, k, part)
    requires OpDone(fs1, fs, i, off + k, part, r, more)
    ensures FileSoFar(fs0, fs, i, off, src, k + Pos(r), if r == -1 then k else k + more)
  {
    if r != -1 {
      ChunkSpliced(fs0, fs1, fs, i, off, src, k, off + k, part, more);
    }
  }

  lemma ChunkSpliced(fs0: Fs, fs1: Fs, fs2: Fs, i: nat, off: nat, src: seq<nat>, k: nat, at: nat, part: seq<nat>,
                     more: nat)
    requires SliceOf(src, k, part) && more <= |part| && at == off + k
    requires Spliced(fs0, fs1, i, off, src[..k]) && Spliced(fs1, fs2, i, at, part[..more])
    ensures Spliced(fs0, fs2, i, off, src[..k + more])
  {
    assert src[..k] + part[..more] == src[..k + more];
    SplicedMore(fs0, fs1, fs2, i, off, src[..k], part[..more]);
  }

  /** All files but `i` have the sizes they had. */
  ghost predicate OtherSizes(fs0: Fs, fs: Fs, i: nat) {
    fs.inodes.Keys == fs0.inodes.Keys && forall j: nat :: j in fs.inodes && j != i ==>
        fs.inodes[j].size == fs0.inodes[j].size
  }

  /** `k` bytes of `src` are written at `off`, `seen` of them stored, and the sizes are right. */
  ghost predicate FileSoFar(fs0: Fs, fs: Fs, i: nat, off: nat, src: seq<nat>, k: nat, seen: nat) {
    && i in fs0.inodes && i in fs.inodes && k <= seen <= |src| && Spliced(fs0, fs, i, off, src[..seen])
    && fs.inodes[i].size == (if k == 0 then fs0.inodes[i].size else Max(fs0.inodes[i].size, off + k))
    && OtherSizes(fs0, fs, i)
  }

  function Pos(n: int): nat {
    if n < 0 then 0 else n
  }

  /** A chunk of at most three blocks' bytes on a hole-free file fits the log reservation of one operation. */
  lemma TxFits(lg: set<nat>, fs0: Fs, fs: Fs, i: nat, off: nat, n: nat, t: nat, tx: Tx, inodeBlock: nat)
    requires LoggedBy({}, lg, fs0, fs, i, off, n, t, tx, inodeBlock)
    requires HoleFree(fs0) && i in fs0.inodes && off <= fs0.inodes[i].size && n <= 3072
    ensures |lg| <= LogMachine.MAXOPBLOCKS
  {
    var ind := {Ptr(fs, i, INDIRECT)};
    var all := tx.data + tx.maps + ind + {inodeBlock};
    UnionSize(tx.data, tx.maps);
    UnionSize(tx.data + tx.maps, ind);
    UnionSize(tx.data + tx.maps + ind, {inodeBlock});
    forall c: nat | c in lg
      ensures c in all
    {
      assert c == inodeBlock || c in lg - {inodeBlock};
    }
    SubsetSize(lg, all);
    if t >= 4 {
      assert BlockNo(off) * 1024 < fs0.inodes[i].size;
      assert Ptr(fs0, i, BlockNo(off)) != 0;
    }
  }

  /** What one turn of the write loop leaves, by its outcome. */
  lemma StepDone(fs0: Fs, fs1: Fs, fs: Fs, i: nat, off: nat, bn: nat, o: nat, n: nat, src: seq<nat>, tot: nat, m: nat,
                 bytes: seq<nat>, got: seq<nat>, res: Outcome)
    returns (seen: nat)
    requires Progress(fs0, fs1, i, off, src, tot, tot) && |src| <= n
    requires tot < n && off + tot == bn * 1024 + o && o < BSIZE && (tot == 0 || o == 0) && m == Chunk(o, n - tot)
    requires SliceOf(src, tot, bytes) && |bytes| == Min(m, |src| - tot)
    requires Turned(fs1, fs, i, bn, off + tot, m, bytes, got, res)
    ensures Stepped(fs0, fs, i, off, n, src, tot, seen, bn, o, res)
  {
    ProgressNext(fs0, fs1, fs, i, off, src, tot, got, bn, o, m);
    seen := tot + |got|;
  }

  /** The first `k` direct slots of inode `i` are empty and nothing else of the inodes has changed. */
  ghost predicate Cleared(fs: Fs, fs': Fs, i: nat, k: nat) {
    && i in fs.inodes && i in fs'.inodes && fs'.inodes == fs.inodes[i := fs'.inodes[i]]
    && |fs.inodes[i].addrs| == NDIRECT + 1 && |fs'.inodes[i].addrs| == NDIRECT + 1
    && (forall m :: 0 <= m < k && m < NDIRECT ==> fs'.inodes[i].addrs[m] == 0)
    && (forall m :: k <= m <= NDIRECT ==> fs'.inodes[i].addrs[m] == fs.inodes[i].addrs[m])
  }

  /** With its blocks freed and its slots empty, a file is gone and all else is as before. */
  lemma Truncated(lay: Layout, j: Journal, fs0: Fs, fs: Fs, own: map<nat, Slot>, i: nat)
    requires Owned(fs0, own, lay.meta) && HoleFree(fs0) && i in fs0.inodes && Within(lay, j, fs, own, i)
    requires fs.data == fs0.data && FreedAll(fs.used, fs0.used, own, i) && Emptied(fs0, fs, i)
    ensures Owned(fs, Others(own, i), lay.meta) && HoleFree(fs) && Within(lay, j, fs, Others(own, i), i)
    ensures forall k: nat, n: nat :: Ptr(fs, k, n) == if k == i then 0 else Ptr(fs0, k, n)
    ensures forall k: nat, x: nat :: At(fs, k, x) == if k == i then 0 else At(fs0, k, x)
  {
    EmptiedOwned(fs0, fs, own, lay.meta, i, fs.inodes[i]);
    EmptiedHoleFree(fs0, fs, i, fs.inodes[i]);
    EmptiedBytes(fs0, fs, i);
    FollowsFewer(lay, j, fs, own, Others(own, i), i);
  }

  /** All slots of inode `i` are empty, its size is 0, and no other inode has changed. */
  ghost predicate Emptied(fs: Fs, fs': Fs, i: nat) {
    && i in fs'.inodes && fs'.inodes == fs.inodes[i := fs'.inodes[i]] && fs'.inodes[i].size == 0
    && |fs'.inodes[i].addrs| == NDIRECT + 1 && forall m :: 0 <= m <= NDIRECT ==> fs'.inodes[i].addrs[m] == 0
  }

  /** Allocating block `r` for an empty slot keeps the invariants and every file. */
  lemma SlotFilled(lay: Layout, j: Journal, fs: Fs, own: map<nat, Slot>, i: nat, n: nat, r: nat)
    requires Owned(fs, own, lay.meta) && HoleFree(fs) && Within(lay, j, fs, own, i) && n <= INDIRECT
    requires r < |fs.used| && !fs.used[r] && Ptr(fs, i, n) == 0
    requires NDIRECT <= n < INDIRECT ==> Ptr(fs, i, INDIRECT) != 0
    ensures var fs', own' := Linked(fs, i, n, r), own[r := Slot(i, n)];
      && Owned(fs', own', lay.meta) && HoleFree(fs') && Within(lay, LogLink(lay, j, fs, i, n, r), fs', own', i)
      && SlotSet(fs, fs', i, n, r) && SameBlocks(fs, fs') && SameSizes(fs, fs')
  {
    LinkSlots(fs, own, lay.meta, i, n, r);
    LinkOwned(fs, own, lay.meta, i, n, r);
    LinkBlocks(fs, own, lay.meta, i, n, r);
    FollowsLink(lay, j, fs, own, i, n, r);
    KeepsHoleFree(fs, Linked(fs, i, n, r));
  }

  class FileSystem {
    var fs: Fs
    var logged: set<nat>            // distinct blocks passed to log_write in this transaction
    const lay: Layout
    ghost var own: map<nat, Slot>
    var jnl: Journal                // what the log holds, and which buffers are ahead of it

    ghost predicate Valid()
      reads this`fs, this`own
    {
      Owned(fs, own, lay.meta) && HoleFree(fs)
    }

    /** Inside an operation on inode `i`: the log has all changes but those of this inode and failed copies. */
    ghost predicate Busy(i: nat)
      reads this`fs, this`own, this`jnl
    {
      Within(lay, jnl, fs, own, i)
    }

    /** Between operations: the log has all changes but failed copies, and every past end was sound. */
    ghost predicate Idle()
      reads this`fs, this`own, this`jnl
    {
      Settled(lay, jnl, fs, own)
    }

    /** A fresh file system: reserved blocks in use, all files empty. */
    constructor (size: nat, lay: Layout, inums: set<nat>)
      requires 0 < lay.meta <= size < WORD && lay.inodestart <= lay.bmapstart
      requires BitmapBlock(lay, size - 1) < lay.meta && forall i :: i in inums ==> InodeBlock(lay, i) < lay.bmapstart
      ensures Valid() && Idle() && logged == {} && own == map[] && this.lay == lay
      ensures |fs.used| == size && forall b :: 0 <= b < size ==> fs.used[b] == (b < lay.meta)
      ensures fs.inodes.Keys == inums && forall i :: i in inums ==> fs.inodes[i].size == 0
    {
      this.lay := lay;
      ZeroIsBlock();
      var inodes := map i | i in inums :: Inode(0, Fill(NDIRECT + 1));
      var f := Fs(seq(size, b => b < lay.meta), seq(size, _ => ZERO), inodes);
      fs := f;
      logged := {};
      own := map[];
      jnl := Journal(f, [], {}, {});
    }

    /** The file system as recovery leaves it: nothing is cached and the log is empty. */
    constructor Mount(image: Fs, lay: Layout, ghost own: map<nat, Slot>)
      requires Fits(lay, image) && Owned(image, own, lay.meta) && HoleFree(image)
      ensures Valid() && Idle() && fs == image && logged == {} && this.own == own && this.lay == lay
      ensures jnl == Journal(image, [], {}, {})
    {
      this.lay := lay;
      fs := image;
      logged := {};
      this.own := own;
      jnl := Journal(image, [], {}, {});
    }

    /** A block for use: the lowest free one, zeroed; 0 only when none is free. */
    method Balloc() returns (r: nat)
      requires |fs.used| == |fs.data| && 0 < lay.meta <= |fs.used| && fs.used[0]
      modifies this`fs, this`logged, this`jnl
      ensures r == 0 ==> fs == old(fs) && logged == old(logged) && jnl == old(jnl)
      ensures r == 0 ==> forall c :: 0 <= c < |fs.used| ==> fs.used[c]
      ensures r != 0 ==> r < |old(fs).used| && !old(fs).used[r] && forall c :: 0 <= c < r ==> old(fs).used[c]
      ensures r != 0 ==> fs == old(fs).(used := old(fs).used[r := true], data := old(fs).data[r := ZERO])
      ensures r != 0 ==> logged == old(logged) + {BitmapBlock(lay, r), r}
      ensures r != 0 ==> jnl == LogBlock(LogBit(lay, old(jnl), r, true), r, ZERO)
    {
      var b := 0;
      while b < |fs.used|
        invariant fs == old(fs) && logged == old(logged) && jnl == old(jnl)
        invariant b % BPB == 0
        invariant forall c :: 0 <= c < b && c < |fs.used| ==> fs.used[c]
      {
        var bi := 0;
        while bi < BPB && b + bi < |fs.used|
          invariant fs == old(fs) && logged == old(logged) && jnl == old(jnl) && 0 <= bi <= BPB
          invariant forall c :: 0 <= c < b + bi && c < |fs.used| ==> fs.used[c]
        {
          if !fs.used[b + bi] {
            fs := fs.(used := fs.used[b + bi := true]);
            logged := logged + {b / BPB + lay.bmapstart};
            assert (b + bi) / BPB == b / BPB;
            jnl := LogBit(lay, jnl, b + bi, true);
            Bzero(b + bi);
            return b + bi;
          }
          bi := bi + 1;
        }
        b := b + BPB;
      }
      return 0;
    }

    method Bzero(b: nat)
      requires b < |fs.data|
      modifies this`fs, this`logged, this`jnl
      ensures fs == old(fs).(data := old(fs).data[b := ZERO]) && logged == old(logged) + {b}
      ensures jnl == LogBlock(old(jnl), b, ZERO)
    {
      fs := fs.(data := fs.data[b := ZERO]);
      logged := logged + {b};
      jnl := LogBlock(jnl, b, ZERO);
    }

    /** Gives back a block that is in use; the panic of freeing a free block is this precondition. */
    method Bfree(b: nat)
      requires b < |fs.used| && fs.used[b]
      modifies this`fs, this`logged, this`jnl
      ensures fs == old(fs).(used := old(fs).used[b := false]) && logged == old(logged) + {BitmapBlock(lay, b)}
      ensures jnl == LogBit(lay, old(jnl), b, false)
    {
      fs := fs.(used := fs.used[b := false]);
      logged := logged + {BitmapBlock(lay, b)};
      jnl := LogBit(lay, jnl, b, false);
    }

    /** Allocates a block for an empty slot; on failure nothing changes and every block is in use. */
    method FillSlot(i: nat, n: nat) returns (r: nat)
      requires Valid() && Busy(i) && i in fs.inodes && n <= INDIRECT && Ptr(fs, i, n) == 0
      requires NDIRECT <= n < INDIRECT ==> Ptr(fs, i, INDIRECT) != 0
      modifies this`fs, this`logged, this`own, this`jnl
      ensures Valid() && Busy(i) && SameOp(old(jnl), jnl) && r == Ptr(fs, i, n)
      ensures r == 0 ==> fs == old(fs) && logged == old(logged) && jnl == old(jnl)
      ensures r == 0 ==> forall c :: 0 <= c < |fs.used| ==> fs.used[c]
      ensures SlotSet(old(fs), fs, i, n, r)
      ensures SameBlocks(old(fs), fs) && SameSizes(old(fs), fs)
      ensures r != 0 && (n < NDIRECT || n == INDIRECT) ==> logged == old(logged) + {BitmapBlock(lay, r), r}
      ensures r != 0 && NDIRECT <= n < INDIRECT ==>
        logged == old(logged) + {BitmapBlock(lay, r), r, Ptr(fs, i, INDIRECT)}
    {
      ghost var fs0, j := fs, jnl;
      assert NDIRECT <= n < INDIRECT ==> Holds(own, Ptr(fs, i, INDIRECT), i, INDIRECT);
      r := Balloc();
      if r != 0 {
        SlotFilled(lay, j, fs0, own, i, n, r);
        Store(i, n, r);
        own := own[r := Slot(i, n)];
        assert fs == Linked(fs0, i, n, r);
        assert jnl == LogLink(lay, j, fs0, i, n, r);
      }
    }

    /** Enters a block number in the inode, or in the indirect block together with its log_write. */
    method Store(i: nat, n: nat, b: nat)
      requires i in fs.inodes && |fs.inodes[i].addrs| == NDIRECT + 1 && n <= INDIRECT
      requires NDIRECT <= n < INDIRECT ==> fs.inodes[i].addrs[NDIRECT] < |fs.data|
      modifies this`fs, this`logged, this`jnl
      ensures n < NDIRECT || n == INDIRECT ==>
        logged == old(logged) && jnl == old(jnl) && fs.data == old(fs).data
      ensures NDIRECT <= n < INDIRECT ==> fs.inodes == old(fs).inodes
      ensures fs.used == old(fs).used
      ensures n < NDIRECT || n == INDIRECT ==> var ino := old(fs).inodes[i];
        fs.inodes == old(fs).inodes[i := ino.(addrs := ino.addrs[if n < NDIRECT then n else NDIRECT := b])]
      ensures NDIRECT <= n < INDIRECT ==> var ind := old(fs).inodes[i].addrs[NDIRECT];
        && fs.data == old(fs).data[ind := PutWord(old(fs).data[ind], n - NDIRECT, b)]
        && logged == old(logged) + {ind} && jnl == LogBlock(old(jnl), ind, fs.data[ind])
    {
      var ino := fs.inodes[i];
      if n < NDIRECT {
        fs := fs.(inodes := fs.inodes[i := ino.(addrs := ino.addrs[n := b])]);
      } else if n == INDIRECT {
        fs := fs.(inodes := fs.inodes[i := ino.(addrs := ino.addrs[NDIRECT := b])]);
      } else {
        var ind := ino.addrs[NDIRECT];
        fs := fs.(data := fs.data[ind := PutWord(fs.data[ind], n - NDIRECT, b)]);
        logged := logged + {ind};
        jnl := LogBlock(jnl, ind, fs.data[ind]);
      }
    }

    /** Block `bn` of a file, allocated when missing, with the indirect block when that is missing too. */
    method Bmap(i: nat, bn: nat) returns (addr: nat, ghost maps: set<nat>)
      requires Valid() && Busy(i) && i in fs.inodes && bn < MAXFILE
      modifies this`fs, this`logged, this`own, this`jnl
      ensures Valid() && Busy(i) && SameOp(old(jnl), jnl) && addr == Ptr(fs, i, bn)
      ensures Ptr(old(fs), i, bn) != 0 ==>
        fs == old(fs) && own == old(own) && logged == old(logged) && jnl == old(jnl) && maps == {}
      ensures addr == 0 ==> forall c :: 0 <= c < |fs.used| ==> fs.used[c]
      ensures Keeps(old(fs), fs) && SameBlocks(old(fs), fs) && SameSizes(old(fs), fs)
      ensures forall j: nat, m: nat :: j != i || (m != bn && m != INDIRECT) ==> Ptr(fs, j, m) == Ptr(old(fs), j, m)
      ensures bn < NDIRECT ==> Ptr(fs, i, INDIRECT) == Ptr(old(fs), i, INDIRECT)
      ensures LogsOnly(old(logged), logged, addr, Ptr(fs, i, INDIRECT), maps)
      ensures |maps| <= (if Ptr(old(fs), i, bn) == 0 && addr != 0 then 1 else 0)
                      + (if Ptr(old(fs), i, INDIRECT) == 0 && Ptr(fs, i, INDIRECT) != 0 then 1 else 0)
    {
      maps := {};
      if bn < NDIRECT {
        addr := fs.inodes[i].addrs[bn];
        if addr == 0 {
          addr := FillSlot(i, bn);
          maps := if addr == 0 then {} else {BitmapBlock(lay, addr)};
        }
        return;
      }
      addr, maps := BmapIndirect(i, bn);
    }

    method BmapIndirect(i: nat, bn: nat) returns (addr: nat, ghost maps: set<nat>)
      requires Valid() && Busy(i) && i in fs.inodes && NDIRECT <= bn < MAXFILE
      modifies this`fs, this`logged, this`own, this`jnl
      ensures Valid() && Busy(i) && SameOp(old(jnl), jnl) && addr == Ptr(fs, i, bn)
      ensures Ptr(old(fs), i, bn) != 0 ==>
        fs == old(fs) && own == old(own) && logged == old(logged) && jnl == old(jnl) && maps == {}
      ensures addr == 0 ==> forall c :: 0 <= c < |fs.used| ==> fs.used[c]
      ensures Keeps(old(fs), fs) && SameBlocks(old(fs), fs) && SameSizes(old(fs), fs)
      ensures forall j: nat, m: nat :: j != i || (m != bn && m != INDIRECT) ==> Ptr(fs, j, m) == Ptr(old(fs), j, m)
      ensures LogsOnly(old(logged), logged, addr, Ptr(fs, i, INDIRECT), maps)
      ensures |maps| <= (if Ptr(old(fs), i, bn) == 0 && addr != 0 then 1 else 0)
                      + (if Ptr(old(fs), i, INDIRECT) == 0 && Ptr(fs, i, INDIRECT) != 0 then 1 else 0)
    {
      maps := {};
      var ind := fs.inodes[i].addrs[NDIRECT];
      if ind == 0 {
        ind := FillSlot(i, INDIRECT);
        if ind == 0 {
          addr := 0;
          return;
        }
        maps := {BitmapBlock(lay, ind)};
      }
      ghost var more;
      addr, more := BmapEntry(i, bn, ind);
      maps := maps + more;
    }

    /** The entry of the indirect block for block `bn`, filled when empty. */
    method BmapEntry(i: nat, bn: nat, ind: nat) returns (addr: nat, ghost maps: set<nat>)
      requires Valid() && Busy(i) && i in fs.inodes && NDIRECT <= bn < MAXFILE && ind == Ptr(fs, i, INDIRECT) != 0
      modifies this`fs, this`logged, this`own, this`jnl
      ensures Valid() && Busy(i) && SameOp(old(jnl), jnl) && addr == Ptr(fs, i, bn)
      ensures Ptr(old(fs), i, bn) != 0 ==>
        fs == old(fs) && own == old(own) && logged == old(logged) && jnl == old(jnl) && maps == {}
      ensures addr == 0 ==> fs == old(fs) && forall c :: 0 <= c < |fs.used| ==> fs.used[c]
      ensures Ptr(old(fs), i, bn) == 0 ==> SlotSet(old(fs), fs, i, bn, addr)
      ensures SameBlocks(old(fs), fs) && SameSizes(old(fs), fs)
      ensures LogsOnly(old(logged), logged, addr, ind, maps)
      ensures |maps| <= if Ptr(old(fs), i, bn) == 0 && addr != 0 then 1 else 0
    {
      maps := {};
      assert Holds(own, Ptr(fs, i, INDIRECT), i, INDIRECT);
      addr := GetWord(fs.data[ind], bn - NDIRECT);
      if addr == 0 {
        addr := FillSlot(i, bn);
        maps := if addr == 0 then {} else {BitmapBlock(lay, addr)};
      }
    }

    /** Discards a file: gives back exactly its blocks and leaves every other file as it was. */
    method Itrunc(i: nat)
      requires Valid() && Busy(i) && i in fs.inodes
      modifies this`fs, this`logged, this`own, this`jnl
      ensures Valid() && own == Others(old(own), i)
      ensures Busy(i) && SameOp(old(jnl), jnl) && Image(jnl).inodes == fs.inodes
      ensures i in fs.inodes && fs.inodes == old(fs).inodes[i := fs.inodes[i]] && fs.inodes[i].size == 0
      ensures forall j: nat, n: nat :: Ptr(fs, j, n) == if j == i then 0 else Ptr(old(fs), j, n)
      ensures forall j: nat, x: nat :: At(fs, j, x) == if j == i then 0 else At(old(fs), j, x)
      ensures FreedAll(fs.used, old(fs).used, old(own), i)
    {
      ghost var fs0 := fs;
      FreeBlocks(i);
      SetInode(i, fs.inodes[i].(size := 0));
      Truncated(lay, jnl, fs0, fs, own, i);
      own := Others(own, i);
    }

    /** The direct slots and the indirect block. */
    method FreeBlocks(i: nat)
      requires Owned(fs, own, lay.meta) && Busy(i) && i in fs.inodes
      modifies this`fs, this`logged, this`jnl
      ensures Busy(i) && SameOp(old(jnl), jnl) && fs.data == old(fs).data
      ensures i in fs.inodes && fs.inodes == old(fs).inodes[i := fs.inodes[i]]
      ensures |fs.inodes[i].addrs| == NDIRECT + 1 && forall m :: 0 <= m <= NDIRECT ==> fs.inodes[i].addrs[m] == 0
      ensures FreedAll(fs.used, old(fs).used, own, i)
    {
      ghost var fs0 := fs;
      FreeDirect(i);
      var ind := fs.inodes[i].addrs[NDIRECT];
      if ind != 0 {
        FreeIndirect(fs0, i, ind);
        NoneLeft(fs.used, fs0, own, lay.meta, i, INDIRECT + 1);
      } else {
        NoneLeft(fs.used, fs0, own, lay.meta, i, NDIRECT);
      }
    }

    /** The loop over the direct slots. */
    method FreeDirect(i: nat)
      requires Owned(fs, own, lay.meta) && Busy(i) && i in fs.inodes
      modifies this`fs, this`logged, this`jnl
      ensures Busy(i) && SameOp(old(jnl), jnl) && fs.data == old(fs).data
      ensures FreedTo(fs.used, old(fs).used, own, i, NDIRECT)
      ensures Cleared(old(fs), fs, i, NDIRECT)
    {
      ghost var fs0 := fs;
      var k := 0;
      while k < NDIRECT
        invariant 0 <= k <= NDIRECT && Busy(i) && SameOp(old(jnl), jnl)
        invariant fs.data == fs0.data && FreedTo(fs.used, fs0.used, own, i, k) && Cleared(fs0, fs, i, k)
      {
        FreeNext(fs.used, fs0, own, lay.meta, i, k);
        if fs.inodes[i].addrs[k] != 0 {
          FreeSlot(fs0, i, k);
        }
        k := k + 1;
      }
    }

    /** Gives back the block in direct slot `k` and empties the slot. */
    method FreeSlot(ghost fs0: Fs, i: nat, k: nat)
      requires Busy(i) && k < NDIRECT && Cleared(fs0, fs, i, k)
      requires fs.inodes[i].addrs[k] < |fs.used| && fs.used[fs.inodes[i].addrs[k]]
      modifies this`fs, this`logged, this`jnl
      ensures Busy(i) && SameOp(old(jnl), jnl) && Cleared(fs0, fs, i, k + 1)
      ensures fs.data == old(fs).data && fs.used == old(fs).used[old(fs).inodes[i].addrs[k] := false]
    {
      var ino := fs.inodes[i];
      FollowsBit(lay, jnl, fs, own, i, ino.addrs[k], false);
      Bfree(ino.addrs[k]);
      FollowsInode(lay, jnl, fs, own, i, ino.(addrs := ino.addrs[k := 0]));
      fs := fs.(inodes := fs.inodes[i := ino.(addrs := ino.addrs[k := 0])]);
    }

    /** The loop over the entries of the indirect block, and then that block itself. */
    method FreeIndirect(ghost fs0: Fs, i: nat, ind: nat)
      requires Owned(fs0, own, lay.meta) && i in fs0.inodes && ind == Ptr(fs0, i, INDIRECT) != 0
      requires fs.data == fs0.data && FreedTo(fs.used, fs0.used, own, i, NDIRECT)
      requires Busy(i) && i in fs.inodes && |fs.inodes[i].addrs| == NDIRECT + 1
      modifies this`fs, this`logged, this`jnl
      ensures Busy(i) && SameOp(old(jnl), jnl)
      ensures fs.data == fs0.data && FreedTo(fs.used, fs0.used, own, i, INDIRECT + 1)
      ensures var ino := old(fs).inodes[i];
        fs.inodes == old(fs).inodes[i := ino.(addrs := ino.addrs[NDIRECT := 0])]
    {
      assert Holds(own, ind, i, INDIRECT);
      var k := 0;
      while k < NINDIRECT
        invariant 0 <= k <= NINDIRECT && Busy(i) && SameOp(old(jnl), jnl)
        invariant fs.data == fs0.data && FreedTo(fs.used, fs0.used, own, i, NDIRECT + k)
        invariant fs.inodes == old(fs).inodes
      {
        FreeNext(fs.used, fs0, own, lay.meta, i, NDIRECT + k);
        var b := GetWord(fs.data[ind], k);
        if b != 0 {
          FollowsBit(lay, jnl, fs, own, i, b, false);
          Bfree(b);
        }
        k := k + 1;
      }
      FreeNext(fs.used, fs0, own, lay.meta, i, INDIRECT);
      FollowsBit(lay, jnl, fs, own, i, ind, false);
      Bfree(ind);
      var ino := fs.inodes[i];
      FollowsInode(lay, jnl, fs, own, i, ino.(addrs := ino.addrs[NDIRECT := 0]));
      fs := fs.(inodes := fs.inodes[i := ino.(addrs := ino.addrs[NDIRECT := 0])]);
    }

    /** Bytes of one block of a file. */
    method CopyOut(i: nat, addr: nat, bn: nat, o: nat, m: nat) returns (got: seq<nat>)
      requires Valid() && i in fs.inodes && o + m <= BSIZE && bn * 1024 + o + m <= fs.inodes[i].size
      requires bn < MAXFILE && addr == Ptr(fs, i, bn) != 0
      ensures got == Content(fs, i)[bn * 1024 + o..bn * 1024 + o + m]
    {
      assert Holds(own, addr, i, bn);
      got := fs.data[addr].bytes[o..o + m];
      SliceBytes(fs, i, bn, o, m, fs.data[addr]);
    }

    /** Overwrites bytes of one block of a file in the cache, without log_write. */
    method CopyIn(i: nat, addr: nat, bn: nat, o: nat, ghost off: nat, bytes: seq<nat>)
      requires Valid() && Busy(i) && o + |bytes| <= BSIZE && forall k :: 0 <= k < |bytes| ==> bytes[k] < 256
      requires bn < MAXFILE && addr == Ptr(fs, i, bn) != 0 && off == bn * 1024 + o
      modifies this`fs, this`jnl
      ensures Valid() && Busy(i) && SameOp(old(jnl), jnl)
      ensures addr < |fs.data| && Spliced(old(fs), fs, i, off, bytes)
      ensures fs.used == old(fs).used && fs.inodes == old(fs).inodes && SamePtrs(old(fs), fs)
    {
      ghost var fs0 := fs;
      PatchSplices(fs, own, lay.meta, i, bn, o, bytes);
      assert Holds(own, addr, i, bn);
      FollowsCopy(lay, jnl, fs, own, i, addr, Patch(fs.data[addr], o, bytes));
      fs := fs.(data := fs.data[addr := Patch(fs.data[addr], o, bytes)]);
      jnl := jnl.(stale := jnl.stale + {addr});
      KeepsHoleFree(fs0, fs);
    }

    /** One turn of the read loop: the block is there, so nothing is allocated. */
    method ReadTurn(i: nat, bn: nat, o: nat, m: nat) returns (got: seq<nat>)
      requires Valid() && Busy(i) && i in fs.inodes && o + m <= BSIZE
      requires bn * 1024 + o < fs.inodes[i].size && bn * 1024 + o + m <= fs.inodes[i].size
      modifies this`fs, this`logged, this`own, this`jnl
      ensures fs == old(fs) && logged == old(logged) && own == old(own) && jnl == old(jnl)
      ensures got == Content(fs, i)[bn * 1024 + o..bn * 1024 + o + m]
    {
      assert Ptr(fs, i, bn) != 0;
      var addr, maps := Bmap(i, bn);
      got := CopyOut(i, addr, bn, o, m);
    }

    /** Reads the requested slice, cut at the end of the file, and never allocates a block. */
    method Readi(i: nat, off: nat, n: nat, room: nat) returns (r: int, dst: seq<nat>)
      requires Valid() && Busy(i) && i in fs.inodes && off < WORD && n < WORD
      modifies this`fs, this`logged, this`own, this`jnl
      ensures fs == old(fs) && logged == old(logged) && own == old(own) && jnl == old(jnl)
      ensures off > fs.inodes[i].size || off + n >= WORD ==> r == 0 && dst == []
      ensures off <= fs.inodes[i].size && off + n < WORD ==>
        var want := Min(n, fs.inodes[i].size - off);
        r == (if want <= room then want else -1) && dst == Content(fs, i)[off..off + Min(want, room)]
    {
      var size := fs.inodes[i].size;
      if off > size || Overflows(off, n) {
        return 0, [];
      }
      r, dst := ReadLoop(i, off, if off + n > size then size - off else n, room);
    }

    method ReadLoop(i: nat, off: nat, want: nat, room: nat) returns (r: int, dst: seq<nat>)
      requires Valid() && Busy(i) && i in fs.inodes && off + want <= fs.inodes[i].size
      modifies this`fs, this`logged, this`own, this`jnl
      ensures fs == old(fs) && logged == old(logged) && own == old(own) && jnl == old(jnl)
      ensures r == if want <= room then want else -1
      ensures dst == Content(fs, i)[off..off + Min(want, room)]
    {
      dst := [];
      ghost var c := Content(fs, i);
      var tot := 0;
      while tot < want
        invariant fs == old(fs) && logged == old(logged) && own == old(own) && jnl == old(jnl)
        invariant tot <= want && tot <= room
        invariant dst == c[off..off + tot]
      {
        var bn, o := Divide(off + tot);
        var m := Chunk(o, want - tot);
        var k := Min(m, room - tot);
        var got := ReadTurn(i, bn, o, k);
        Appended(c, off, tot, k);
        dst := dst + got;
        assert dst == c[off..off + tot + k];
        if k < m {
          return -1, dst;
        }
        tot := tot + m;
      }
      return tot, dst;
    }

    /** One turn of the write loop: the block is found or allocated and the readable bytes are copied in. */
    method WriteTurn(i: nat, bn: nat, o: nat, ghost off: nat, m: nat, bytes: seq<nat>)
      returns (res: Outcome, ghost got: seq<nat>, ghost maps: set<nat>)
      requires Valid() && Busy(i) && i in fs.inodes && bn < MAXFILE && o + m <= BSIZE && off == bn * 1024 + o
      requires |bytes| <= m && forall k :: 0 <= k < |bytes| ==> bytes[k] < 256
      modifies this`fs, this`logged, this`own, this`jnl
      ensures Valid() && Busy(i) && SameOp(old(jnl), jnl) && Turned(old(fs), fs, i, bn, off, m, bytes, got, res)
      ensures Charged(old(logged), logged, old(fs), fs, i, bn, maps)
    {
      var addr;
      ghost var fs0 := fs;
      addr, maps := Bmap(i, bn);
      if addr == 0 {
        SameBlocksSplice(fs0, fs, i, off);
        assert SlotKept(fs0, fs, i, INDIRECT);
        return Full, [], maps;
      }
      ghost var fs1 := fs;
      res := WriteBlock(i, addr, bn, o, off, m, bytes);
      SameThenSpliced(fs0, fs1, fs, i, off, bytes);
      KeepsSame(fs0, fs1, fs);
      assert SlotKept(fs0, fs, i, INDIRECT);
      got := bytes;
    }

    /** Copies the readable bytes into a block of the file, and logs it unless some were unreadable. */
    method WriteBlock(i: nat, addr: nat, bn: nat, o: nat, ghost off: nat, m: nat, bytes: seq<nat>)
      returns (res: Outcome)
      requires Valid() && Busy(i) && o + m <= BSIZE && bn < MAXFILE && addr == Ptr(fs, i, bn) != 0
      requires |bytes| <= m && (forall k :: 0 <= k < |bytes| ==> bytes[k] < 256) && off == bn * 1024 + o
      modifies this`fs, this`logged, this`jnl
      ensures Valid() && Busy(i) && SameOp(old(jnl), jnl) && Spliced(old(fs), fs, i, off, bytes)
      ensures fs.used == old(fs).used && fs.inodes == old(fs).inodes && SamePtrs(old(fs), fs)
      ensures !res.Full? && res.Fault? == (|bytes| < m)
      ensures logged == if res.Done? then old(logged) + {addr} else old(logged)
    {
      CopyIn(i, addr, bn, o, off, bytes);
      if |bytes| < m {
        return Fault;
      }
      logged := logged + {addr};
      assert Holds(own, addr, i, bn);
      FollowsBlock(lay, jnl, fs, own, i, addr, fs.data[addr]);
      jnl := LogBlock(jnl, addr, fs.data[addr]);
      assert fs == fs.(data := fs.data[addr := fs.data[addr]]);
      return Done;
    }

    /** The write loop: `tot` bytes are written and logged, `seen` of them are in the cached blocks. */
    method WriteLoop(i: nat, off: nat, ghost bn0: nat, ghost o0: nat, n: nat, src: seq<nat>)
      returns (tot: nat, ghost seen: nat, ghost t: nat, ghost tx: Tx, ghost bn: nat, ghost o: nat)
      requires Valid() && Busy(i) && i in fs.inodes && off <= fs.inodes[i].size && off + n <= MAXBYTES
      requires off == bn0 * 1024 + o0 && o0 < BSIZE
      requires |src| <= n && forall k :: 0 <= k < |src| ==> src[k] < 256
      modifies this`fs, this`logged, this`own, this`jnl
      ensures Valid() && Busy(i) && SameOp(old(jnl), jnl) && Progress(old(fs), fs, i, off, src, tot, seen)
      ensures tot <= n && (tot == n ==> seen == n)
      ensures tot < n ==> Stopped(fs, i, off, n, src, tot, seen, bn, o)
      ensures (t > 0 ==> (t - 1) * 1024 < o0 + n) && Accounts(old(logged), logged, old(fs), fs, i, bn0, t, tx)
    {
      ghost var fs0, lg0 := fs, logged;
      tot := 0;
      tx := Tx({}, {});
      t := 0;
      seen := 0;
      ghost var at := o0;
      bn, o := bn0, o0;
      ProgressStart(fs, i, off, src);
      while tot < n
        invariant Valid() && Busy(i) && SameOp(old(jnl), jnl) && AtChunk(o0, n, tot, t, at)
        invariant t == 0 ==> fs == fs0
        invariant seen == tot && Progress(fs0, fs, i, off, src, tot, seen)
        invariant Accounts(lg0, logged, fs0, fs, i, bn0, t, tx)
      {
        var bn1, o1 := Divide(off + tot);
        NextChunk(bn0, o0, n, tot, t, at, bn1, o1);
        bn, o := bn1, o1;
        var res;
        ghost var fs1, lg1, maps := fs, logged, {};
        res, seen, maps := WriteChunk(fs0, i, off, bn1, o1, n, src, tot);
        assert SlotKept(fs0, fs1, i, INDIRECT);
        tx := AccountsNext(lg0, lg1, logged, fs0, fs1, fs, i, bn0, t, tx, maps, bn1);
        t := t + 1;
        if !res.Done? {
          return;
        }
        tot := tot + Chunk(o1, n - tot);
        at := 0;
      }
    }

    /** One turn of the loop, seen from the start of the write. */
    method WriteChunk(ghost fs0: Fs, i: nat, off: nat, bn: nat, o: nat, n: nat, src: seq<nat>, tot: nat)
      returns (res: Outcome, ghost seen: nat, ghost maps: set<nat>)
      requires Valid() && Busy(i) && i in fs0.inodes && bn < MAXFILE
      requires |src| <= n && forall k :: 0 <= k < |src| ==> src[k] < 256
      requires tot < n && off + tot == bn * 1024 + o && o < BSIZE && (tot == 0 || o == 0)
      requires Progress(fs0, fs, i, off, src, tot, tot)
      modifies this`fs, this`logged, this`own, this`jnl
      ensures Valid() && Busy(i) && SameOp(old(jnl), jnl)
      ensures Stepped(fs0, fs, i, off, n, src, tot, seen, bn, o, res)
      ensures Charged(old(logged), logged, old(fs), fs, i, bn, maps)
    {
      ghost var fs1, at, m := fs, off + tot, Chunk(o, n - tot);
      ghost var bytes, got;
      res, bytes, got, maps := WriteStep(i, at, bn, o, n - tot, src, tot);
      seen := StepDone(fs0, fs1, fs, i, off, bn, o, n, src, tot, m, bytes, got, res);
    }

    /** One turn with the readable part of its chunk. */
    method WriteStep(i: nat, ghost off: nat, bn: nat, o: nat, left: nat, src: seq<nat>, tot: nat)
      returns (res: Outcome, ghost bytes: seq<nat>, ghost got: seq<nat>, ghost maps: set<nat>)
      requires Valid() && Busy(i) && i in fs.inodes && bn < MAXFILE && off == bn * 1024 + o && o < BSIZE
      requires tot <= |src| && forall k :: 0 <= k < |src| ==> src[k] < 256
      modifies this`fs, this`logged, this`own, this`jnl
      ensures Valid() && Busy(i) && SameOp(old(jnl), jnl)
      ensures SliceOf(src, tot, bytes) && |bytes| == Min(Chunk(o, left), |src| - tot)
      ensures Turned(old(fs), fs, i, bn, off, Chunk(o, left), bytes, got, res)
      ensures Charged(old(logged), logged, old(fs), fs, i, bn, maps)
    {
      var m := Chunk(o, left);
      var part := Readable(src, tot, m);
      bytes := part;
      res, got, maps := WriteTurn(i, bn, o, off, m, part);
    }

    /**
     * Writes as much of `n` bytes as the readable source `src` and the free blocks allow.
     * The `tot` bytes returned are stored and logged; `seen - tot` further bytes of a chunk whose copy
     * failed midway sit in the cached block.
     */
    method Writei(i: nat, off: nat, n: nat, src: seq<nat>)
      returns (r: int, ghost seen: nat, ghost t: nat, ghost tx: Tx)
      requires Valid() && Busy(i) && i in fs.inodes && off < WORD && n < WORD
      requires |src| <= n && forall k :: 0 <= k < |src| ==> src[k] < 256
      modifies this`fs, this`logged, this`own, this`jnl
      ensures Valid() && Busy(i) && SameOp(old(jnl), jnl) && fs.inodes.Keys == old(fs).inodes.Keys
      ensures r != -1 ==> Image(jnl).inodes == fs.inodes
      ensures r == -1 <==> off > old(fs).inodes[i].size || off + n > MAXBYTES
      ensures r == -1 ==> fs == old(fs) && logged == old(logged) && own == old(own) && jnl == old(jnl)
      ensures r != -1 ==> 0 <= r <= seen <= |src| && Spliced(old(fs), fs, i, off, src[..seen]) && Keeps(old(fs), fs)
      ensures r != -1 ==> fs.inodes[i].size == Max(old(fs).inodes[i].size, off + r)
      ensures forall j: nat :: j in fs.inodes && j != i ==> fs.inodes[j].size == old(fs).inodes[j].size
      ensures r != -1 ==> Ended(fs, i, off, n, src, r, seen)
      ensures r != -1 ==> LoggedBy(old(logged), logged, old(fs), fs, i, off, n, t, tx, InodeBlock(lay, i))
    {
      var size := fs.inodes[i].size;
      if off > size || Overflows(off, n) || off + n > MAXBYTES {
        seen, t, tx := 0, 0, Tx({}, {});
        return -1, seen, t, tx;
      }
      r, seen, t, tx := WriteSpan(i, off, n, src);
    }

    /** The write loop and the update of the inode after it. */
    method WriteSpan(i: nat, off: nat, n: nat, src: seq<nat>)
      returns (tot: nat, ghost seen: nat, ghost t: nat, ghost tx: Tx)
      requires Valid() && Busy(i) && i in fs.inodes && off <= fs.inodes[i].size && off + n <= MAXBYTES
      requires |src| <= n && forall k :: 0 <= k < |src| ==> src[k] < 256
      modifies this`fs, this`logged, this`own, this`jnl
      ensures Valid() && Busy(i) && SameOp(old(jnl), jnl) && Image(jnl).inodes == fs.inodes
      ensures tot <= seen <= |src| && Spliced(old(fs), fs, i, off, src[..seen]) && Keeps(old(fs), fs)
      ensures fs.inodes.Keys == old(fs).inodes.Keys && OtherSizes(old(fs), fs, i)
      ensures fs.inodes[i].size == Max(old(fs).inodes[i].size, off + tot)
      ensures Ended(fs, i, off, n, src, tot, seen)
      ensures LoggedBy(old(logged), logged, old(fs), fs, i, off, n, t, tx, InodeBlock(lay, i))
    {
      ghost var fs0, lg0 := fs, logged;
      var size := fs.inodes[i].size;
      tot, seen, t, tx := WriteData(i, off, n, src);
      ghost var fs1, lg1, stored, ib := fs, logged, src[..seen], InodeBlock(lay, i);
      FilledSize(fs0, fs, i, off, tot);
      Update(i, Max(size, off + tot));
      SpanDone(lg0, lg1, logged, fs0, fs1, fs, i, off, n, src, stored, t, tx, ib, tot, seen);
    }

    /** The write loop, and why it ends. */
    method WriteData(i: nat, off: nat, n: nat, src: seq<nat>)
      returns (tot: nat, ghost seen: nat, ghost t: nat, ghost tx: Tx)
      requires Valid() && Busy(i) && i in fs.inodes && off <= fs.inodes[i].size && off + n <= MAXBYTES
      requires |src| <= n && forall k :: 0 <= k < |src| ==> src[k] < 256
      modifies this`fs, this`logged, this`own, this`jnl
      ensures Valid() && Busy(i) && SameOp(old(jnl), jnl) && Progress(old(fs), fs, i, off, src, tot, seen)
      ensures tot <= n && Ended(fs, i, off, n, src, tot, seen)
      ensures t > 0 ==> (t - 1) * 1024 < Offset(off) + n
      ensures Accounts(old(logged), logged, old(fs), fs, i, BlockNo(off), t, tx)
    {
      ghost var bn, o;
      tot, seen, t, tx, bn, o := WriteLoop(i, off, BlockNo(off), Offset(off), n, src);
      LoopEnded(fs, i, off, n, src, tot, seen, bn, o);
    }

    /** A change of the in-memory inode, and iupdate. */
    method SetInode(i: nat, ino: Inode)
      requires Busy(i)
      modifies this`fs, this`logged, this`jnl
      ensures Busy(i) && SameOp(old(jnl), jnl) && Image(jnl).inodes == fs.inodes
      ensures fs == old(fs).(inodes := old(fs).inodes[i := ino]) && logged == old(logged) + {InodeBlock(lay, i)}
    {
      FollowsInode(lay, jnl, fs, own, i, ino);
      fs := fs.(inodes := fs.inodes[i := ino]);
      logged := logged + {InodeBlock(lay, i)};
      FollowsUpdate(lay, jnl, fs, own, i);
      jnl := LogInode(lay, jnl, i, fs.inodes[i]);
    }

    /** The size and iupdate at the end of writei. */
    method Update(i: nat, size: nat)
      requires Valid() && Busy(i) && i in fs.inodes && size <= MAXBYTES && Filled(fs, i, size)
      modifies this`fs, this`logged, this`jnl
      ensures Valid() && Busy(i) && SameOp(old(jnl), jnl) && Image(jnl).inodes == fs.inodes
      ensures fs == old(fs).(inodes := old(fs).inodes[i := old(fs).inodes[i].(size := size)])
      ensures Spliced(old(fs), fs, i, 0, []) && SamePtrs(old(fs), fs) && logged == old(logged) + {InodeBlock(lay, i)}
    {
      SetSize(fs, own, lay.meta, i, size);
      SetInode(i, fs.inodes[i].(size := size));
    }

    /** One chunk between begin_op and end_op; `tx` is the number of distinct blocks it logs. */
    method WriteOp(i: nat, off: nat, n: nat, src: seq<nat>) returns (r: int, ghost seen: nat, ghost tx: nat)
      requires Valid() && Idle() && i in fs.inodes && off < WORD && n <= 3072
      requires |src| <= n && forall k :: 0 <= k < |src| ==> src[k] < 256
      modifies this`fs, this`logged, this`own, this`jnl
      ensures Valid() && Idle() && tx == |logged| <= LogMachine.MAXOPBLOCKS
      ensures jnl.start == Image(old(jnl)) && jnl.held == old(jnl).stale
      ensures r == -1 <==> off > old(fs).inodes[i].size || off + n > MAXBYTES
      ensures OpDone(old(fs), fs, i, off, src, r, seen) && (r == n ==> seen == n)
    {
      logged := {};
      BeginWithin(lay, jnl, fs, own, i);
      jnl := BeginOp(jnl);
      ghost var fs0, t, tr := fs, 0, Tx({}, {});
      r, seen, t, tr := Writei(i, off, n, src);
      if r != -1 {
        TxFits(logged, fs0, fs, i, off, n, t, tr, InodeBlock(lay, i));
      }
      tx := |logged|;
    }

    /** A truncation between begin_op and end_op. */
    method TruncOp(i: nat)
      requires Valid() && Idle() && i in fs.inodes
      modifies this`fs, this`logged, this`own, this`jnl
      ensures Valid() && Idle() && jnl.start == Image(old(jnl)) && jnl.held == old(jnl).stale
      ensures OtherSizes(old(fs), fs, i) && fs.inodes[i].size == 0 && FreedAll(fs.used, old(fs).used, old(own), i)
      ensures forall j: nat, x: nat :: At(fs, j, x) == if j == i then 0 else At(old(fs), j, x)
    {
      logged := {};
      BeginWithin(lay, jnl, fs, own, i);
      jnl := BeginOp(jnl);
      Itrunc(i);
    }

    /**
     * The buffer of block `c` is recycled and read again.  If it was changed and not logged, the bytes `v` on the
     * disk take the place of the change.
     */
    method Recycle(c: nat, v: Block)
      requires Valid() && Idle() && IsBlock(v)
      modifies this`fs
      ensures Valid() && Idle() && fs == if c in jnl.stale then old(fs).(data := old(fs).data[c := v]) else old(fs)
      ensures SamePtrs(old(fs), fs)
    {
      if c in jnl.stale {
        RecycleSettled(lay, jnl, fs, own, c, v);
        fs := fs.(data := fs.data[c := v]);
      }
    }

    /**
     * Writes in chunks, each in its own transaction, and moves the file offset by the bytes written.
     * `txs` holds the number of distinct blocks each transaction logs.
     */
    method FileWrite(i: nat, off: nat, n: int, src: seq<nat>)
      returns (ret: int, off': nat, ghost seen: nat, ghost txs: seq<nat>)
      requires Valid() && Idle() && i in fs.inodes && off < WORD && n < 0x8000_0000
      requires |src| <= Pos(n) && forall k :: 0 <= k < |src| ==> src[k] < 256
      modifies this`fs, this`logged, this`own, this`jnl
      ensures Valid() && Idle() && OtherSizes(old(fs), fs, i)
      ensures forall k :: 0 <= k < |txs| ==> txs[k] <= LogMachine.MAXOPBLOCKS
      ensures off <= off' <= off + Pos(n) && ret == if off' == off + n then n else -1
      ensures off' - off <= seen <= |src| && Spliced(old(fs), fs, i, off, src[..seen])
      ensures off' == off + n ==> seen == n
      ensures fs.inodes[i].size == if off' == off then old(fs).inodes[i].size else Max(old(fs).inodes[i].size, off')
    {
      ghost var fs0 := fs;
      var k := 0;
      off', seen, txs := off, 0, [];
      SameBlocksSplice(fs, fs, i, off);
      while k < n
        invariant Valid() && Idle()
        invariant 0 <= k <= Pos(n) && off' == off + k && seen == k <= |src|
        invariant k > 0 ==> off' <= MAXBYTES
        invariant forall j :: 0 <= j < |txs| ==> txs[j] <= LogMachine.MAXOPBLOCKS
        invariant FileSoFar(fs0, fs, i, off, src, k, seen)
      {
        var n1 := Min(n - k, 3072);
        ghost var tx;
        var r;
        r, seen, tx := FileTurn(fs0, i, off, n1, src, k);
        txs := txs + [tx];
        if r > 0 {
          off' := off' + r;
        }
        if r != n1 {
          return -1, off', seen, txs;
        }
        k := k + r;
      }
      ret := if k == n then n else -1;
    }

    /** One chunk of filewrite, `k` bytes into the request. */
    method FileTurn(ghost fs0: Fs, i: nat, off: nat, n: nat, src: seq<nat>, k: nat)
      returns (r: int, ghost seen: nat, ghost tx: nat)
      requires Valid() && Idle() && i in fs.inodes && off + k < WORD && 0 < n <= 3072 && k <= |src|
      requires FileSoFar(fs0, fs, i, off, src, k, k)
      requires forall j :: 0 <= j < |src| ==> src[j] < 256
      modifies this`fs, this`logged, this`own, this`jnl
      ensures Valid() && Idle() && tx <= LogMachine.MAXOPBLOCKS && -1 <= r <= n
      ensures r >= 0 ==> off + k + r <= MAXBYTES
      ensures FileSoFar(fs0, fs, i, off, src, k + Pos(r), seen) && (r == n ==> seen == k + n)
    {
      ghost var fs1 := fs;
      var part := Readable(src, k, n);
      ghost var more;
      r, more, tx := WriteOp(i, off + k, n, part);
      FileNext(fs0, fs1, fs, i, off, src, k, part, r, more);
      seen := if r == -1 then k else k + more;
    }
  }
}
