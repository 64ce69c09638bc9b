/** The buffer cache of kernel/bio.c: a doubly linked list in order of release, and reference counts. */
module Bio {
  const NBUF := 30

  // ---------------------------------------------------------------- the list

  function Succ(ring: seq<nat>, k: nat): nat
    requires k < |ring|
  {
    if k + 1 < |ring| then ring[k + 1] else ring[0]
  }

  ghost predicate LinkAt(next: seq<nat>, prev: seq<nat>, ring: seq<nat>, k: nat) {
    && k < |ring| && ring[k] < |next| && Succ(ring, k) < |prev|
    && next[ring[k]] == Succ(ring, k) && prev[Succ(ring, k)] == ring[k]
  }

  /** `ring` lists nodes once each, and the links run around it both ways. */
  ghost predicate Ringed(next: seq<nat>, prev: seq<nat>, ring: seq<nat>) {
    && |ring| > 0
    && (forall j :: 0 <= j < |ring| ==> ring[j] < |next| == |prev|)
    && (forall j, k :: 0 <= j < k < |ring| ==> ring[j] != ring[k])
    && (forall k: nat {:trigger LinkAt(next, prev, ring, k)} :: k < |ring| ==> LinkAt(next, prev, ring, k))
  }

  function Without(ring: seq<nat>, k: nat): seq<nat>
    requires k < |ring|
  {
    ring[..k] + ring[k + 1..]
  }

  /** Joining the neighbours of node `k` takes it out. */
  lemma Unlink(next: seq<nat>, prev: seq<nat>, ring: seq<nat>, k: nat)
    requires Ringed(next, prev, ring) && 0 < k < |ring|
    ensures var b := ring[k];
            && prev[b] < |next| && next[b] < |prev|
            && Ringed(next[prev[b] := next[b]], prev[next[b] := prev[b]], Without(ring, k))
  {
    var b, rest := ring[k], Without(ring, k);
    assert LinkAt(next, prev, ring, k) && LinkAt(next, prev, ring, k - 1);
    var next', prev' := next[prev[b] := next[b]], prev[next[b] := prev[b]];
    forall j: nat | j < |rest|
      ensures LinkAt(next', prev', rest, j)
    {
      assert LinkAt(next, prev, ring, if j < k then j else j + 1);
    }
  }

  /** Puts a node that is not on the list right behind the head. */
  lemma LinkFront(next: seq<nat>, prev: seq<nat>, ring: seq<nat>, b: nat)
    requires Ringed(next, prev, ring) && b < |next| && b !in ring
    ensures var h := ring[0];
            && next[h] < |prev|
            && Ringed(next[b := next[h]][h := b], prev[b := h][next[h] := b], [h, b] + ring[1..])
  {
    var h := ring[0];
    var ring' := [h, b] + ring[1..];
    assert LinkAt(next, prev, ring, 0);
    var next', prev' := next[b := next[h]][h := b], prev[b := h][next[h] := b];
    forall j: nat | j < |ring'|
      ensures LinkAt(next', prev', ring', j)
    {
      if j >= 1 {
        assert LinkAt(next, prev, ring, j - 1);
      }
    }
  }

  // ---------------------------------------------------------------- the cache

  datatype Buf = Buf(dev: nat, block: nat, valid: bool, refcnt: int, data: nat)

  const DEV := 1       // the one device; buffers start out as device 0

  predicate Is(b: Buf, block: nat) {
    b.dev == DEV && b.block == block
  }

  ghost predicate Cached(bufs: seq<Buf>, block: nat) {
    exists i :: 0 <= i < |bufs| && Is(bufs[i], block)
  }

  /** No two buffers hold the same block. */
  ghost predicate OneEach(bufs: seq<Buf>) {
    forall i, j :: 0 <= i < j < |bufs| && bufs[i].dev == DEV && bufs[j].dev == DEV ==> bufs[i].block != bufs[j].block
  }

  /**
   * Cache and disk together hold the contents `view`: valid buffers show it, and where the disk may differ,
   * the buffer named by `dirty` has it.
   */
  ghost predicate Coherent(bufs: seq<Buf>, disk: map<nat, nat>, view: map<nat, nat>, dirty: map<nat, nat>) {
    && disk.Keys == view.Keys
    && (forall i :: 0 <= i < |bufs| && bufs[i].dev == DEV ==> bufs[i].block in view)
    && (forall i :: 0 <= i < |bufs| && bufs[i].dev == DEV && bufs[i].valid ==> bufs[i].data == view[bufs[i].block])
    && (forall n: nat :: n in disk && n !in dirty ==> disk[n] == view[n])
    && (forall n: nat :: n in dirty ==> Keeps(bufs, dirty[n], n))
  }

  ghost predicate Keeps(bufs: seq<Buf>, i: nat, n: nat) {
    i < |bufs| && Is(bufs[i], n) && bufs[i].valid
  }

  /** The contents once a buffer has been taken for another block: the disk's, for the block it had. */
  ghost function Forgotten(view: map<nat, nat>, disk: map<nat, nat>, buf: Buf): map<nat, nat> {
    if buf.dev == DEV && buf.block in disk then view[buf.block := disk[buf.block]] else view
  }

  /** Recycling unused buffers loses exactly the changes that only such a buffer holds. */
  ghost predicate LosesOnly(view: map<nat, nat>, view': map<nat, nat>, disk: map<nat, nat>, bufs: seq<Buf>) {
    && view'.Keys == view.Keys == disk.Keys
    && (forall n: nat :: n in view && view'[n] != view[n] ==>
          view'[n] == disk[n] && exists i :: 0 <= i < |bufs| && Is(bufs[i], n) && bufs[i].refcnt == 0)
    && (forall i :: 0 <= i < |bufs| && bufs[i].dev == DEV && bufs[i].refcnt != 0 && bufs[i].block in view ==>
          view'[bufs[i].block] == view[bufs[i].block])
  }

  ghost function StillAhead(dirty: map<nat, nat>, buf: Buf): map<nat, nat> {
    if buf.dev == DEV then dirty - {buf.block} else dirty
  }

  lemma Recycled(bufs: seq<Buf>, disk: map<nat, nat>, view: map<nat, nat>, dirty: map<nat, nat>, b: nat, block: nat)
    requires OneEach(bufs) && Coherent(bufs, disk, view, dirty) && b < |bufs| && !Cached(bufs, block) && block in view
    ensures var bufs' := bufs[b := Buf(DEV, block, false, 1, bufs[b].data)];
      OneEach(bufs') && Coherent(bufs', disk, Forgotten(view, disk, bufs[b]), StillAhead(dirty, bufs[b]))
  {
  }

  /** Contents are lost just when the recycled buffer differs from the disk. */
  lemma RecycleLoses(bufs: seq<Buf>, disk: map<nat, nat>, view: map<nat, nat>, dirty: map<nat, nat>, b: nat, block: nat)
    requires OneEach(bufs) && Coherent(bufs, disk, view, dirty) && !Cached(bufs, block) && block in view
    requires b < |bufs| && bufs[b].refcnt == 0
    ensures Forgotten(view, disk, bufs[b])[block] == view[block]
    ensures LosesOnly(view, Forgotten(view, disk, bufs[b]), disk, bufs)
    ensures Forgotten(view, disk, bufs[b]) == view <==>
      bufs[b].dev == DEV ==> bufs[b].block in view && disk[bufs[b].block] == view[bufs[b].block]
  {
    var buf := bufs[b];
    assert buf.dev == DEV ==> buf.block in view;
    if buf.dev == DEV && disk[buf.block] == view[buf.block] {
      assert view[buf.block := disk[buf.block]] == view;
    }
  }

  class Bcache {
    var bufs: seq<Buf>
    var next: seq<nat>
    var prev: seq<nat>
    var disk: map<nat, nat>
    ghost var order: seq<nat>       // most recently released first
    ghost var view: map<nat, nat>
    ghost var dirty: map<nat, nat>

    /** The head of the list is node NBUF. */
    ghost predicate Listed()
      reads this`next, this`prev, this`order
    {
      && |next| == NBUF + 1 && |prev| == NBUF + 1
      && Ringed(next, prev, [NBUF] + order)
      && (forall b: nat :: b < NBUF ==> b in order)
    }

    ghost predicate Valid()
      reads this
    {
      && Listed() && |bufs| == NBUF && OneEach(bufs) && Coherent(bufs, disk, view, dirty)
      && (forall b: nat :: b < NBUF ==> bufs[b].refcnt >= 0)
    }

    /** binit: all buffers on the list, none in use. */
    constructor (disk: map<nat, nat>)
      ensures Valid() && view == disk && dirty == map[] && this.disk == disk
      ensures forall b :: 0 <= b < NBUF ==> bufs[b] == Buf(0, 0, false, 0, 0)
    {
      this.disk := disk;
      bufs := seq(NBUF, _ => Buf(0, 0, false, 0, 0));
      next, prev := seq(NBUF + 1, _ => NBUF), seq(NBUF + 1, _ => NBUF);
      order, view, dirty := [], disk, map[];
      new;
      var b := 0;
      while b < NBUF
        invariant 0 <= b <= NBUF && |next| == NBUF + 1 && |prev| == NBUF + 1
        invariant Ringed(next, prev, [NBUF] + order)
        invariant forall i: nat :: i in order <==> i < b
        invariant this.disk == disk && view == disk && dirty == map[]
        invariant |bufs| == NBUF && forall i :: 0 <= i < NBUF ==> bufs[i] == Buf(0, 0, false, 0, 0)
      {
        ghost var ring := [NBUF] + order;
        LinkFront(next, prev, ring, b);
        next := next[b := next[NBUF]];
        prev := prev[b := NBUF];
        prev := prev[next[NBUF] := b];
        next := next[NBUF := b];
        order := [b] + order;
        assert [NBUF, b] + ring[1..] == [NBUF] + order;
        b := b + 1;
      }
    }

    /** The cached buffer of a block: the scan from the most recent one. */
    method Find(block: nat) returns (b: nat)
      requires Valid()
      ensures b <= NBUF
      ensures b < NBUF ==> Is(bufs[b], block)
      ensures b == NBUF ==> !Cached(bufs, block)
    {
      ghost var ring := [NBUF] + order;
      ghost var k: nat := 1;
      assert LinkAt(next, prev, ring, 0);
      b := next[NBUF];
      while b != NBUF
        invariant 1 <= k <= |ring| && b == (if k < |ring| then ring[k] else NBUF)
        invariant forall j :: 0 <= j < k - 1 ==> order[j] < NBUF && !Is(bufs[order[j]], block)
        decreases |ring| - k
      {
        assert LinkAt(next, prev, ring, k);
        assert ring[0] != ring[k];
        assert ring[k] == order[k - 1];
        if Is(bufs[b], block) {
          return;
        }
        b := next[b];
        k := k + 1;
      }
      forall i | 0 <= i < |bufs|
        ensures !Is(bufs[i], block)
      {
        assert i in order;
      }
    }

    /** The least recently released buffer without references: the scan from the other end. */
    method FindUnused() returns (b: nat, ghost at: nat)
      requires Valid()
      ensures b <= NBUF
      ensures b < NBUF ==> at < |order| && order[at] == b && bufs[b].refcnt == 0
      ensures b < NBUF ==> forall j :: at < j < |order| ==> order[j] < NBUF && bufs[order[j]].refcnt != 0
      ensures b == NBUF ==> forall i :: 0 <= i < |bufs| ==> bufs[i].refcnt != 0
    {
      ghost var ring := [NBUF] + order;
      ghost var k: nat := |order|;
      assert LinkAt(next, prev, ring, |ring| - 1);
      b := prev[NBUF];
      at := 0;
      while b != NBUF
        invariant 0 <= k <= |order| && b == ring[k]
        invariant forall j :: k <= j < |order| ==> order[j] < NBUF && bufs[order[j]].refcnt != 0
        decreases k
      {
        assert k > 0 && b == order[k - 1];
        assert ring[0] != ring[k];
        if bufs[b].refcnt == 0 {
          at := k - 1;
          return;
        }
        assert LinkAt(next, prev, ring, k - 1);
        b := prev[b];
        k := k - 1;
      }
      forall i | 0 <= i < |bufs|
        ensures bufs[i].refcnt != 0
      {
        assert i in order;
      }
    }

    /**
     * The buffer of a block with one more reference: the cached one, or else the least recently released unused one.
     * NBUF stands for the panic, which happens exactly when the block is not cached and every buffer is in use.
     * A change that only the recycled buffer holds is lost; no other contents change.
     */
    method Bget(block: nat) returns (b: nat)
      requires Valid() && block in view
      modifies this`bufs, this`view, this`dirty
      ensures Valid() && b <= NBUF
      ensures b == NBUF <==> !Cached(old(bufs), block) && forall i :: 0 <= i < NBUF ==> old(bufs)[i].refcnt != 0
      ensures b == NBUF || Cached(old(bufs), block) ==> view == old(view)
      ensures b == NBUF ==> bufs == old(bufs)
      ensures b < NBUF && Cached(old(bufs), block) ==>
        Is(old(bufs)[b], block) && bufs == old(bufs)[b := old(bufs)[b].(refcnt := old(bufs)[b].refcnt + 1)]
      ensures b < NBUF && !Cached(old(bufs), block) ==>
        && old(bufs)[b].refcnt == 0 && bufs == old(bufs)[b := Buf(DEV, block, false, 1, old(bufs)[b].data)]
        && Oldest(old(bufs), order, b) && view == Forgotten(old(view), disk, old(bufs)[b])
      ensures block in view && view[block] == old(view)[block] && LosesOnly(old(view), view, disk, old(bufs))
    {
      b := Find(block);
      if b != NBUF {
        Bpin(b);
        return;
      }
      b := Recycle(block);
    }

    /** Takes the least recently released unused buffer for a block that is not cached. */
    method Recycle(block: nat) returns (b: nat)
      requires Valid() && block in view && !Cached(bufs, block)
      modifies this`bufs, this`view, this`dirty
      ensures Valid() && b <= NBUF
      ensures b == NBUF <==> forall i :: 0 <= i < NBUF ==> old(bufs)[i].refcnt != 0
      ensures b == NBUF ==> bufs == old(bufs) && view == old(view)
      ensures b < NBUF ==> old(bufs)[b].refcnt == 0 && Oldest(old(bufs), order, b)
      ensures b < NBUF ==> bufs == old(bufs)[b := Buf(DEV, block, false, 1, old(bufs)[b].data)]
      ensures b < NBUF ==> view == Forgotten(old(view), disk, old(bufs)[b])
      ensures block in view && view[block] == old(view)[block] && LosesOnly(old(view), view, disk, old(bufs))
    {
      ghost var at;
      b, at := FindUnused();
      if b != NBUF {
        Recycled(bufs, disk, view, dirty, b, block);
        RecycleLoses(bufs, disk, view, dirty, b, block);
        view, dirty := Forgotten(view, disk, bufs[b]), StillAhead(dirty, bufs[b]);
        bufs := bufs[b := Buf(DEV, block, false, 1, bufs[b].data)];
      }
    }

    /** The block's contents in a buffer that is held. */
    method Bread(block: nat) returns (b: nat)
      requires Valid() && block in view
      modifies this`bufs, this`view, this`dirty
      ensures Valid() && b <= NBUF
      ensures b == NBUF <==> !Cached(old(bufs), block) && forall i :: 0 <= i < NBUF ==> old(bufs)[i].refcnt != 0
      ensures block in view && view[block] == old(view)[block] && LosesOnly(old(view), view, disk, old(bufs))
      ensures b < NBUF ==> Is(bufs[b], block) && bufs[b].valid && bufs[b].data == view[block] && bufs[b].refcnt > 0
      ensures forall i :: 0 <= i < NBUF && i != b ==> bufs[i] == old(bufs)[i]
    {
      b := Bget(block);
      if b != NBUF && !bufs[b].valid {
        Load(b);
      }
    }

    /** Reads a block that has no valid contents yet from the disk, which is up to date for it. */
    method Load(b: nat)
      requires Valid() && b < NBUF && bufs[b].dev == DEV && !bufs[b].valid
      modifies this`bufs
      ensures Valid() && bufs == old(bufs)[b := old(bufs)[b].(data := view[old(bufs)[b].block], valid := true)]
    {
      assert forall n: nat :: n in dirty ==> Keeps(bufs, dirty[n], n);
      bufs := bufs[b := bufs[b].(data := disk[bufs[b].block], valid := true)];
    }

    /** The holder changes the contents. */
    method Modify(b: nat, v: nat)
      requires Valid() && b < NBUF && bufs[b].dev == DEV && bufs[b].valid && bufs[b].refcnt > 0
      modifies this`bufs, this`view, this`dirty
      ensures Valid() && view == old(view)[bufs[b].block := v] && bufs == old(bufs)[b := old(bufs)[b].(data := v)]
      ensures dirty == old(dirty)[bufs[b].block := b]
    {
      view, dirty := view[bufs[b].block := v], dirty[bufs[b].block := b];
      bufs := bufs[b := bufs[b].(data := v)];
    }

    /** Brings the disk up to date for one block. */
    method Bwrite(b: nat)
      requires Valid() && b < NBUF && bufs[b].dev == DEV && bufs[b].valid
      modifies this`disk, this`dirty
      ensures Valid() && disk == old(disk)[bufs[b].block := view[bufs[b].block]]
      ensures dirty == old(dirty) - {bufs[b].block}
    {
      disk := disk[bufs[b].block := bufs[b].data];
      dirty := dirty - {bufs[b].block};
    }

    /** Drops a reference; the last one moves the buffer to the front. The contents stay, logged or not. */
    method Brelse(b: nat)
      requires Valid() && b < NBUF && bufs[b].refcnt > 0
      modifies this`bufs, this`next, this`prev, this`order
      ensures Valid() && bufs == old(bufs)[b := old(bufs)[b].(refcnt := old(bufs)[b].refcnt - 1)]
      ensures old(bufs)[b].refcnt > 1 ==> order == old(order)
      ensures old(bufs)[b].refcnt == 1 ==> order == [b] + Dropped(old(order), b)
    {
      bufs := bufs[b := bufs[b].(refcnt := bufs[b].refcnt - 1)];
      if bufs[b].refcnt == 0 {
        ToFront(b);
      }
    }

    /** The buffer becomes the first on the list. */
    method ToFront(b: nat)
      requires Listed() && b < NBUF
      modifies this`next, this`prev, this`order
      ensures Listed() && order == [b] + Dropped(old(order), b)
    {
      ghost var k, rest, order' := FrontOrder(order, b);
      TakeOut(b, [NBUF] + order, k + 1);
      PutFirst(b, rest);
      order := order';
    }

    method TakeOut(b: nat, ghost ring: seq<nat>, ghost k: nat)
      requires |next| == |prev| == NBUF + 1 && Ringed(next, prev, ring) && 0 < k < |ring| && ring[k] == b
      modifies this`next, this`prev
      ensures |next| == |prev| == NBUF + 1 && Ringed(next, prev, Without(ring, k))
    {
      Unlink(next, prev, ring, k);
      var after, before := next[b], prev[b];
      prev := prev[after := before];
      next := next[before := after];
    }

    method PutFirst(b: nat, ghost ring: seq<nat>)
      requires |next| == |prev| == NBUF + 1 && Ringed(next, prev, ring) && ring[0] == NBUF && b < NBUF && b !in ring
      modifies this`next, this`prev
      ensures |next| == |prev| == NBUF + 1 && Ringed(next, prev, [NBUF, b] + ring[1..])
    {
      LinkFront(next, prev, ring, b);
      next := next[b := next[NBUF]];
      prev := prev[b := NBUF];
      prev := prev[next[NBUF] := b];
      next := next[NBUF := b];
    }

    /** One more reference, as log_write takes and install_trans gives back. */
    method Bpin(b: nat)
      requires Valid() && b < NBUF
      modifies this`bufs
      ensures Valid() && bufs == old(bufs)[b := old(bufs)[b].(refcnt := old(bufs)[b].refcnt + 1)]
    {
      bufs := bufs[b := bufs[b].(refcnt := bufs[b].refcnt + 1)];
    }

    method Bunpin(b: nat)
      requires Valid() && b < NBUF && bufs[b].refcnt > 0
      modifies this`bufs
      ensures Valid() && bufs == old(bufs)[b := old(bufs)[b].(refcnt := old(bufs)[b].refcnt - 1)]
    {
      bufs := bufs[b := bufs[b].(refcnt := bufs[b].refcnt - 1)];
    }
  }

  /** Every buffer released longer ago is in use. */
  ghost predicate Oldest(bufs: seq<Buf>, order: seq<nat>, b: nat) {
    exists at :: 0 <= at < |order| && order[at] == b && forall j :: at < j < |order| ==>
        order[j] < |bufs| && bufs[order[j]].refcnt != 0
  }

  ghost function Position(order: seq<nat>, b: nat): (k: nat)
    requires b in order
    ensures k < |order| && order[k] == b
  {
    if order[0] == b then 0 else 1 + Position(order[1..], b)
  }

  lemma StillThere(order: seq<nat>, k: nat, i: nat)
    requires k < |order| && i in order
    ensures i in [order[k]] + Without(order, k)
  {
    var j := Position(order, i);
    if j < k {
      assert Without(order, k)[j] == i;
    } else if j > k {
      assert Without(order, k)[j - 1] == i;
    }
  }

  /** The list without node `b`, and with it in front. */
  lemma FrontOrder(order: seq<nat>, b: nat) returns (k: nat, rest: seq<nat>, order': seq<nat>)
    requires var ring := [NBUF] + order; forall i, j :: 0 <= i < j < |ring| ==> ring[i] != ring[j]
    requires b < NBUF && forall i: nat :: i < NBUF ==> i in order
    ensures k < |order| && ([NBUF] + order)[k + 1] == b && rest == Without([NBUF] + order, k + 1)
    ensures rest != [] && rest[0] == NBUF && b !in rest
    ensures order' == [b] + Dropped(order, b) && [NBUF, b] + rest[1..] == [NBUF] + order'
    ensures forall i: nat :: i < NBUF ==> i in order'
  {
    k := DroppedAt(order, b);
    rest, order' := [NBUF] + Without(order, k), [b] + Without(order, k);
    WithoutHead(order, k);
    TakenOnce([NBUF] + order, k + 1);
    AllStill(order, k);
  }

  lemma DroppedAt(order: seq<nat>, b: nat) returns (k: nat)
    requires b in order
    ensures k < |order| && order[k] == b && Dropped(order, b) == Without(order, k)
  {
    k := Position(order, b);
  }

  lemma AllStill(order: seq<nat>, k: nat)
    requires k < |order| && forall i: nat :: i < NBUF ==> i in order
    ensures forall i: nat :: i < NBUF ==> i in [order[k]] + Without(order, k)
  {
    forall i: nat | i < NBUF
      ensures i in [order[k]] + Without(order, k)
    {
      StillThere(order, k, i);
    }
  }

  lemma TakenOnce(ring: seq<nat>, k: nat)
    requires k < |ring| && forall i, j :: 0 <= i < j < |ring| ==> ring[i] != ring[j]
    ensures ring[k] !in Without(ring, k)
  {
    forall j | 0 <= j < |Without(ring, k)|
      ensures Without(ring, k)[j] != ring[k]
    {
      assert Without(ring, k)[j] == ring[if j < k then j else j + 1];
    }
  }

  lemma WithoutHead(order: seq<nat>, k: nat)
    requires k < |order|
    ensures Without([NBUF] + order, k + 1) == [NBUF] + Without(order, k)
  {
    var ring := [NBUF] + order;
    assert ring[..k + 1] == [NBUF] + order[..k] && ring[k + 2..] == order[k + 1..];
  }

  ghost function Dropped(order: seq<nat>, b: nat): seq<nat> {
    if b in order then Without(order, Position(order, b)) else order
  }
}
