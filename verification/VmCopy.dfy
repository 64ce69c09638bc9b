/** copyin and copyout of kernel/vm.c: bytes of user memory through the page table. */
module VmCopy {
  import opened MemLayout
  import opened PageTable
  import opened VmCode

  /** walkaddr finds the page of address `va`. */
  ghost predicate Reach(m: Mem, t: Tab, va: nat) {
    va / PGSIZE < MAXVPN && Flat(m, t, va / PGSIZE).valid && Flat(m, t, va / PGSIZE).perm / 16 % 2 == 1
  }

  /** A byte of physical memory. */
  datatype Cell = Cell(frame: nat, off: nat)

  ghost function CellOf(m: Mem, t: Tab, va: nat): Cell {
    Cell(Flat(m, t, va / PGSIZE).frame, va % PGSIZE)
  }

  /** The cell of byte `x` from `va` on. */
  ghost function CellAt(m: Mem, t: Tab, va: nat, x: nat): Cell {
    CellOf(m, t, va + x)
  }

  ghost predicate ReachAt(m: Mem, t: Tab, va: nat, x: nat) {
    Reach(m, t, va + x)
  }

  type Bytes = map<nat, seq<nat>>

  ghost predicate HasBytes(m: Mem, t: Tab, bytes: Bytes) {
    forall va: nat :: Reach(m, t, va) ==> CellOf(m, t, va).frame in bytes && |bytes[CellOf(m, t, va).frame]| == PGSIZE
  }

  function Peek(bytes: Bytes, c: Cell): nat {
    if c.frame in bytes && c.off < |bytes[c.frame]| then bytes[c.frame][c.off] else 0
  }

  function Poke(bytes: Bytes, c: Cell, x: nat): Bytes {
    if c.frame in bytes && c.off < |bytes[c.frame]| then
      var page: seq<nat> := bytes[c.frame][c.off := x];
      bytes[c.frame := page]
    else bytes
  }

  /** All of the first `n` bytes from `va` on are in present pages. */
  ghost predicate AllReach(m: Mem, t: Tab, va: nat, n: nat) {
    forall x: nat :: x < n ==> ReachAt(m, t, va, x)
  }

  /** `n` of `len` bytes are in present pages, and no more. */
  ghost predicate Longest(m: Mem, t: Tab, va: nat, len: nat, n: nat) {
    n <= len && AllReach(m, t, va, n) && (n < len ==> !ReachAt(m, t, va, n))
  }

  /** Memory after the bytes are stored one after the other. */
  ghost function Stored(m: Mem, t: Tab, bytes: Bytes, va: nat, src: seq<nat>): Bytes {
    if src == [] then bytes
    else
      var n := |src| - 1;
      Poke(Stored(m, t, bytes, va, src[..n]), CellAt(m, t, va, n), src[n])
  }

  lemma {:induction false} StoredShape(m: Mem, t: Tab, bytes: Bytes, va: nat, src: seq<nat>)
    ensures var b := Stored(m, t, bytes, va, src);
      b.Keys == bytes.Keys && forall f :: f in bytes ==> |b[f]| == |bytes[f]|
    decreases |src|
  {
    if src != [] {
      StoredShape(m, t, bytes, va, src[..|src| - 1]);
    }
  }

  lemma PokePeek(b: Bytes, d: Cell, x: nat, c: Cell)
    requires c.frame in b && c.off < |b[c.frame]|
    ensures Peek(Poke(b, d, x), c) == if c == d then x else Peek(b, c)
  {
  }

  /** Byte `x` is the last one stored into the cell. */
  ghost predicate LastIn(m: Mem, t: Tab, va: nat, n: nat, c: Cell, x: nat) {
    x < n && CellAt(m, t, va, x) == c && forall y: nat :: x < y < n ==> CellAt(m, t, va, y) != c
  }

  /** What is in a cell afterwards: the last byte stored there, or else the old one. */
  lemma {:induction false} StoredAt(m: Mem, t: Tab, bytes: Bytes, va: nat, src: seq<nat>, c: Cell)
    requires c.frame in bytes && c.off < |bytes[c.frame]|
    ensures (forall x: nat :: x < |src| ==> CellAt(m, t, va, x) != c) ==>
      Peek(Stored(m, t, bytes, va, src), c) == Peek(bytes, c)
    ensures forall x: nat :: LastIn(m, t, va, |src|, c, x) ==> Peek(Stored(m, t, bytes, va, src), c) == src[x]
    decreases |src|
  {
    if src != [] {
      var n := |src| - 1;
      var rest := src[..n];
      StoredAt(m, t, bytes, va, rest, c);
      StoredShape(m, t, bytes, va, rest);
      PokePeek(Stored(m, t, bytes, va, rest), CellAt(m, t, va, n), src[n], c);
      assert forall x: nat :: x < n && LastIn(m, t, va, |src|, c, x) ==> LastIn(m, t, va, n, c, x) && rest[x] == src[x];
    }
  }

  /** Bytes read back after a store are the ones stored, just when no byte was stored over a different one. */
  lemma ReadBack(m: Mem, t: Tab, bytes: Bytes, va: nat, src: seq<nat>)
    requires HasBytes(m, t, bytes) && AllReach(m, t, va, |src|)
    ensures (forall x: nat :: x < |src| ==> Peek(Stored(m, t, bytes, va, src), CellAt(m, t, va, x)) == src[x]) <==>
      forall x: nat, y: nat :: x < y < |src| && CellAt(m, t, va, x) == CellAt(m, t, va, y) ==> src[x] == src[y]
  {
    var b := Stored(m, t, bytes, va, src);
    if forall x: nat, y: nat :: x < y < |src| && CellAt(m, t, va, x) == CellAt(m, t, va, y) ==> src[x] == src[y] {
      forall x: nat | x < |src| ensures Peek(b, CellAt(m, t, va, x)) == src[x] {
        var y := LastStored(m, t, bytes, va, src, x);
      }
    }
    if forall x: nat :: x < |src| ==> Peek(b, CellAt(m, t, va, x)) == src[x] {
      forall x: nat, y: nat | x < y < |src| && CellAt(m, t, va, x) == CellAt(m, t, va, y) ensures src[x] == src[y] {
      }
    }
  }

  /** A byte stored no earlier than byte `x` is found in the cell of byte `x`. */
  lemma LastStored(m: Mem, t: Tab, bytes: Bytes, va: nat, src: seq<nat>, x: nat) returns (y: nat)
    requires HasBytes(m, t, bytes) && AllReach(m, t, va, |src|) && x < |src|
    ensures x <= y < |src| && CellAt(m, t, va, y) == CellAt(m, t, va, x)
    ensures Peek(Stored(m, t, bytes, va, src), CellAt(m, t, va, x)) == src[y]
  {
    var c := CellAt(m, t, va, x);
    assert ReachAt(m, t, va, x);
    StoredAt(m, t, bytes, va, src, c);
    y := x;
    var z := x + 1;
    while z < |src|
      invariant x <= y < z <= |src| && CellAt(m, t, va, y) == c
      invariant forall w: nat :: y < w < z ==> CellAt(m, t, va, w) != c
    {
      if CellAt(m, t, va, z) == c {
        y := z;
      }
      z := z + 1;
    }
    assert LastIn(m, t, va, |src|, c, y);
  }

  // ----- one page at a time

  /** The rest of the page from `va` on, at most `left` bytes. */
  function Chunk(va: nat, left: nat): (n: nat)
    ensures n <= left && va % PGSIZE + n <= PGSIZE && (n < left ==> (va + n) % PGSIZE == 0) && (left > 0 ==> n > 0)
  {
    var n := PGSIZE - va % PGSIZE;
    if n > left then left else n
  }

  /** Within a page only the offset moves. */
  lemma SamePage(va: nat, x: nat)
    requires va % PGSIZE + x < PGSIZE
    ensures (va + x) / PGSIZE == va / PGSIZE && (va + x) % PGSIZE == va % PGSIZE + x
  {
  }

  function Patch(page: seq<nat>, off: nat, src: seq<nat>): seq<nat>
    requires off + |src| <= |page|
  {
    page[..off] + src + page[off + |src|..]
  }

  lemma PatchLast(page: seq<nat>, off: nat, src: seq<nat>)
    requires off + |src| <= |page| && src != []
    ensures Patch(page, off, src) == Patch(page, off, src[..|src| - 1])[off + |src| - 1 := src[|src| - 1]]
  {
  }

  /** memmove into one page is storing its bytes one after the other. */
  lemma {:induction false} StoredPage(m: Mem, t: Tab, bytes: Bytes, va: nat, src: seq<nat>)
    requires var c := CellOf(m, t, va);
      va % PGSIZE + |src| <= PGSIZE && c.frame in bytes && |bytes[c.frame]| == PGSIZE
    ensures var c := CellOf(m, t, va);
      Stored(m, t, bytes, va, src) == bytes[c.frame := Patch(bytes[c.frame], c.off, src)]
    decreases |src|
  {
    var c := CellOf(m, t, va);
    var page := bytes[c.frame];
    if src == [] {
      assert Patch(page, c.off, src) == page;
    } else {
      var n := |src| - 1;
      StoredPage(m, t, bytes, va, src[..n]);
      SamePage(va, n);
      PatchLast(page, c.off, src);
    }
  }

  lemma {:induction false} StoredMore(m: Mem, t: Tab, bytes: Bytes, va: nat, a: seq<nat>, b: seq<nat>)
    ensures Stored(m, t, bytes, va, a + b) == Stored(m, t, Stored(m, t, bytes, va, a), va + |a|, b)
    decreases |b|
  {
    if b == [] {
      assert a + b == a;
    } else {
      var n := |b| - 1;
      assert (a + b)[..|a + b| - 1] == a + b[..n];
      StoredMore(m, t, bytes, va, a, b[..n]);
    }
  }

  lemma StoredNext(m: Mem, t: Tab, bytes: Bytes, va: nat, src: seq<nat>, k: nat, c: nat)
    requires k + c <= |src|
    ensures Stored(m, t, bytes, va, src[..k + c]) ==
      Stored(m, t, Stored(m, t, bytes, va, src[..k]), va + k, src[k..k + c])
  {
    var a, b, ab := src[..k], src[k..k + c], src[..k + c];
    assert ab == a + b;
    StoredMore(m, t, bytes, va, a, b);
  }

  class User {
    const vm: Vm
    var bytes: Bytes        // contents of the page frames that are not table pages

    ghost predicate Valid(root: nat, t: Tab)
      reads this, vm
    {
      Shaped(vm.m) && TableOk(vm.m, t) && t.at[ROOT] == root && HasBytes(vm.m, t, bytes)
    }

    constructor (vm: Vm, bytes: Bytes)
      ensures this.vm == vm && this.bytes == bytes
    {
      this.vm := vm;
      this.bytes := bytes;
    }

    /** One page of copyin. */
    method Fetch(root: nat, ghost t: Tab, va: nat, n: nat) returns (ok: bool, got: seq<nat>)
      requires Valid(root, t) && va % PGSIZE + n <= PGSIZE
      modifies vm
      ensures Valid(root, t) && vm.m == old(vm.m)
      ensures ok <==> Reach(vm.m, t, va)
      ensures ok ==> |got| == n && AllReach(vm.m, t, va, n)
      ensures ok ==> forall x: nat :: x < n ==> got[x] == Peek(bytes, CellAt(vm.m, t, va, x))
    {
      var frame;
      frame, ok := vm.Walkaddr(root, t, va);
      got := [];
      if ok {
        assert CellOf(vm.m, t, va).frame == frame;
        got := bytes[frame][va % PGSIZE..va % PGSIZE + n];
        forall x: nat | x < n
          ensures ReachAt(vm.m, t, va, x) && got[x] == Peek(bytes, CellAt(vm.m, t, va, x))
        {
          SamePage(va, x);
        }
      }
    }

    /** The bytes of the longest part of the range that is present; -1 if that is not all of it. */
    method Copyin(root: nat, ghost t: Tab, va: nat, len: nat) returns (r: int, dst: seq<nat>)
      requires Valid(root, t)
      modifies vm
      ensures Valid(root, t) && vm.m == old(vm.m)
      ensures Longest(vm.m, t, va, len, |dst|) && r == if |dst| == len then 0 else -1
      ensures forall x: nat :: x < |dst| ==> dst[x] == Peek(bytes, CellAt(vm.m, t, va, x))
    {
      dst := [];
      while |dst| < len
        invariant Valid(root, t) && vm.m == old(vm.m) && |dst| <= len && AllReach(vm.m, t, va, |dst|)
        invariant forall x: nat :: x < |dst| ==> dst[x] == Peek(bytes, CellAt(vm.m, t, va, x))
      {
        var at := va + |dst|;
        var n := Chunk(at, len - |dst|);
        var ok, got := Fetch(root, t, at, n);
        if !ok {
          return -1, dst;
        }
        Joined(vm.m, t, va, |dst|, n);
        ghost var k := |dst|;
        dst := dst + got;
        forall x: nat | x < |dst| ensures dst[x] == Peek(bytes, CellAt(vm.m, t, va, x)) {
          assert x >= k ==> va + x == at + (x - k);
        }
      }
      r := 0;
    }

    /** One page of copyout. */
    method Put(root: nat, ghost t: Tab, va: nat, src: seq<nat>) returns (ok: bool)
      requires Valid(root, t) && va % PGSIZE + |src| <= PGSIZE
      modifies this`bytes, vm
      ensures Valid(root, t) && vm.m == old(vm.m)
      ensures ok <==> Reach(vm.m, t, va)
      ensures ok ==> AllReach(vm.m, t, va, |src|) && bytes == Stored(vm.m, t, old(bytes), va, src)
      ensures !ok ==> bytes == old(bytes)
    {
      var frame;
      frame, ok := vm.Walkaddr(root, t, va);
      if ok {
        assert CellOf(vm.m, t, va) == Cell(frame, va % PGSIZE);
        StoredPage(vm.m, t, bytes, va, src);
        StoredShape(vm.m, t, bytes, va, src);
        bytes := bytes[frame := Patch(bytes[frame], va % PGSIZE, src)];
        forall x: nat | x < |src| ensures ReachAt(vm.m, t, va, x) {
          SamePage(va, x);
        }
      }
    }

    /** Stores the longest part of `src` for which pages are present, and nothing else; -1 if that is not all of it. */
    method Copyout(root: nat, ghost t: Tab, va: nat, src: seq<nat>) returns (r: int, ghost n: nat)
      requires Valid(root, t)
      modifies this`bytes, vm
      ensures Valid(root, t) && vm.m == old(vm.m)
      ensures Longest(vm.m, t, va, |src|, n) && r == if n == |src| then 0 else -1
      ensures bytes == Stored(vm.m, t, old(bytes), va, src[..n])
    {
      var k := 0;
      n := 0;
      while k < |src|
        invariant Valid(root, t) && vm.m == old(vm.m) && n == k <= |src| && AllReach(vm.m, t, va, k)
        invariant bytes == Stored(vm.m, t, old(bytes), va, src[..k])
      {
        var at := va + k;
        var c := Chunk(at, |src| - k);
        var ok := Put(root, t, at, src[k..k + c]);
        if !ok {
          return -1, n;
        }
        Joined(vm.m, t, va, k, c);
        StoredNext(vm.m, t, old(bytes), va, src, k, c);
        k := k + c;
        n := k;
      }
      r := 0;
    }
  }

  lemma Joined(m: Mem, t: Tab, va: nat, k: nat, n: nat)
    requires AllReach(m, t, va, k) && AllReach(m, t, va + k, n)
    ensures AllReach(m, t, va, k + n)
  {
    forall x: nat | x < k + n ensures ReachAt(m, t, va, x) {
      if x >= k {
        assert ReachAt(m, t, va + k, x - k);
      }
    }
  }
}
