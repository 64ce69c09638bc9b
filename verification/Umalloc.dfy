/**
 * The user-space allocator of user/umalloc.c.  Addresses and sizes count Header units; the
 * header at address `a` holds the link `ptr[a]` and the size `size[a]`, and the payload of a
 * block starts at `a + 1`.
 */
module Umalloc {
  import opened Options

  /** A block: header address and number of units, header included. */
  datatype Blk = Blk(a: int, n: nat)

  const HEADER_BYTES := 16
  const MIN_CORE := 4096

  // ----- free lists as sorted sequences of blocks

  /** In address order, with a gap between any two neighbours: no overlap and nothing left to merge. */
  ghost predicate Separated(bs: seq<Blk>) {
    forall i, j :: 0 <= i < j < |bs| ==> bs[i].a + bs[i].n < bs[j].a
  }

  ghost predicate Covers(bs: seq<Blk>, u: int) {
    exists i :: 0 <= i < |bs| && bs[i].a <= u < bs[i].a + bs[i].n
  }

  function Succ(i: nat, n: nat): nat { if i + 1 == n then 0 else i + 1 }

  /** `x` put before the list `rest`, merged with its first block if they touch. */
  function Right(x: Blk, rest: seq<Blk>): (r: seq<Blk>)
    ensures r != [] && r[0].a == x.a
  {
    if rest != [] && x.a + x.n == rest[0].a then [Blk(x.a, x.n + rest[0].n)] + rest[1..] else [x] + rest
  }

  /** The list `pre` followed by `xs`, the blocks at the seam merged if they touch. */
  function Left(pre: seq<Blk>, xs: seq<Blk>): seq<Blk>
    requires pre != [] && xs != []
  {
    var k := |pre| - 1;
    if pre[k].a + pre[k].n == xs[0].a then pre[..k] + ([Blk(pre[k].a, pre[k].n + xs[0].n)] + xs[1..])
    else pre[..k] + ([pre[k]] + xs)
  }

  /** Block `x` goes after index `t`, merged with the neighbours it touches. */
  function Insert(bs: seq<Blk>, t: nat, x: Blk): seq<Blk>
    requires t < |bs|
  {
    Left(bs[..t + 1], Right(x, bs[t + 1..]))
  }

  lemma RightSeparated(x: Blk, rest: seq<Blk>)
    requires Separated(rest) && x.n > 0 && (rest != [] ==> x.a + x.n <= rest[0].a)
    ensures Separated(Right(x, rest))
  {
  }

  lemma LeftSeparated(pre: seq<Blk>, xs: seq<Blk>)
    requires Separated(pre) && Separated(xs) && pre != [] && xs != []
    requires pre[|pre| - 1].a + pre[|pre| - 1].n <= xs[0].a
    ensures Separated(Left(pre, xs))
  {
  }

  lemma InsertSeparated(bs: seq<Blk>, t: nat, x: Blk)
    requires Separated(bs) && t < |bs| && x.n > 0
    requires bs[t].a + bs[t].n <= x.a && (t + 1 < |bs| ==> x.a + x.n <= bs[t + 1].a)
    ensures Separated(Insert(bs, t, x))
  {
    RightSeparated(x, bs[t + 1..]);
    LeftSeparated(bs[..t + 1], Right(x, bs[t + 1..]));
  }

  lemma CoversJoin(xs: seq<Blk>, ys: seq<Blk>, u: int)
    ensures Covers(xs + ys, u) <==> Covers(xs, u) || Covers(ys, u)
  {
    var zs := xs + ys;
    if Covers(xs, u) {
      var i :| 0 <= i < |xs| && xs[i].a <= u < xs[i].a + xs[i].n;
      assert zs[i] == xs[i];
    }
    if Covers(ys, u) {
      var i :| 0 <= i < |ys| && ys[i].a <= u < ys[i].a + ys[i].n;
      assert zs[|xs| + i] == ys[i];
    }
  }

  lemma CoversOne(x: Blk, u: int)
    ensures Covers([x], u) <==> x.a <= u < x.a + x.n
  {
    assert [x][0] == x;
  }

  lemma RightCovers(x: Blk, rest: seq<Blk>, u: int)
    ensures Covers(Right(x, rest), u) <==> Covers(rest, u) || x.a <= u < x.a + x.n
  {
    var r := Right(x, rest);
    CoversOne(x, u);
    CoversJoin([x], rest, u);
    if rest != [] && x.a + x.n == rest[0].a {
      assert rest == [rest[0]] + rest[1..];
      CoversOne(rest[0], u);
      CoversJoin([rest[0]], rest[1..], u);
      CoversOne(r[0], u);
      CoversJoin([r[0]], rest[1..], u);
    }
  }

  lemma LeftCovers(pre: seq<Blk>, xs: seq<Blk>, u: int)
    requires pre != [] && xs != []
    ensures Covers(Left(pre, xs), u) <==> Covers(pre, u) || Covers(xs, u)
  {
    var k := |pre| - 1;
    var p := pre[k];
    assert pre == pre[..k] + [p] && xs == [xs[0]] + xs[1..];
    CoversJoin(pre[..k], [p], u);
    CoversOne(p, u);
    if p.a + p.n == xs[0].a {
      var z := Blk(p.a, p.n + xs[0].n);
      CoversJoin([xs[0]], xs[1..], u);
      CoversJoin([z], xs[1..], u);
      CoversJoin(pre[..k], [z] + xs[1..], u);
      CoversOne(xs[0], u);
      CoversOne(z, u);
    } else {
      CoversJoin([p], xs, u);
      CoversJoin(pre[..k], [p] + xs, u);
    }
  }

  lemma InsertCovers(bs: seq<Blk>, t: nat, x: Blk, u: int)
    requires t < |bs|
    ensures Covers(Insert(bs, t, x), u) <==> Covers(bs, u) || x.a <= u < x.a + x.n
  {
    RightCovers(x, bs[t + 1..], u);
    LeftCovers(bs[..t + 1], Right(x, bs[t + 1..]), u);
    CoversJoin(bs[..t + 1], bs[t + 1..], u);
    assert bs[..t + 1] + bs[t + 1..] == bs;
  }

  // ----- list segments in memory

  type Links = map<int, int>
  type Sizes = map<int, nat>

  ghost predicate Node(x: Blk, ptr: Links, size: Sizes, next: int) {
    x.a in ptr && x.a in size && size[x.a] == x.n && ptr[x.a] == next
  }

  function First(bs: seq<Blk>, end: int): int {
    if bs == [] then end else bs[0].a
  }

  function After(bs: seq<Blk>, i: nat, end: int): int {
    if i + 1 < |bs| then bs[i + 1].a else end
  }

  /** The headers of `bs` are chained in this order and the last one points to `end`. */
  ghost predicate Seg(bs: seq<Blk>, ptr: Links, size: Sizes, end: int) {
    forall i {:trigger After(bs, i, end)} :: 0 <= i < |bs| ==> Node(bs[i], ptr, size, After(bs, i, end))
  }

  lemma SegSplit(xs: seq<Blk>, ys: seq<Blk>, ptr: Links, size: Sizes, end: int)
    ensures Seg(xs + ys, ptr, size, end) <==> Seg(xs, ptr, size, First(ys, end)) && Seg(ys, ptr, size, end)
  {
    var zs := xs + ys;
    assert forall i :: 0 <= i < |xs| ==> zs[i] == xs[i] && After(zs, i, end) == After(xs, i, First(ys, end));
    assert forall i :: 0 <= i < |ys| ==> zs[|xs| + i] == ys[i] && After(zs, |xs| + i, end) == After(ys, i, end);
    if Seg(xs, ptr, size, First(ys, end)) && Seg(ys, ptr, size, end) {
      forall i | 0 <= i < |zs| ensures Node(zs[i], ptr, size, After(zs, i, end)) {
        if i >= |xs| { assert Node(ys[i - |xs|], ptr, size, After(ys, i - |xs|, end)); }
      }
    }
  }

  lemma SegFrame(bs: seq<Blk>, ptr: Links, size: Sizes, end: int, b: int, q: int, n: nat)
    requires Seg(bs, ptr, size, end) && forall i :: 0 <= i < |bs| ==> bs[i].a != b
    ensures Seg(bs, ptr[b := q], size[b := n], end)
  {
  }

  lemma SegCons(x: Blk, rest: seq<Blk>, ptr: Links, size: Sizes, end: int)
    requires Node(x, ptr, size, First(rest, end)) && Seg(rest, ptr, size, end)
    ensures Seg([x] + rest, ptr, size, end)
  {
    assert Seg([x], ptr, size, First(rest, end));
    SegSplit([x], rest, ptr, size, end);
  }

  lemma SegTail(bs: seq<Blk>, ptr: Links, size: Sizes, end: int)
    requires bs != [] && Seg(bs, ptr, size, end)
    ensures Node(bs[0], ptr, size, First(bs[1..], end)) && Seg(bs[1..], ptr, size, end)
  {
    assert bs == [bs[0]] + bs[1..];
    SegSplit([bs[0]], bs[1..], ptr, size, end);
    assert Node([bs[0]][0], ptr, size, After([bs[0]], 0, First(bs[1..], end)));
  }

  /** First half of `free`: the freed block is set up in front of the rest of the list. */
  lemma SegRight(x: Blk, rest: seq<Blk>, ptr: Links, size: Sizes, end: int)
    requires Seg(rest, ptr, size, end) && Separated(rest) && x.n > 0
    requires rest != [] ==> x.a + x.n <= rest[0].a
    ensures var r := Right(x, rest);
      Seg(r, ptr[x.a := First(r[1..], end)], size[x.a := r[0].n], end)
  {
    var r := Right(x, rest);
    var merged := rest != [] && x.a + x.n == rest[0].a;
    var tail := if merged then rest[1..] else rest;
    assert r[1..] == tail && r == [r[0]] + tail;
    if merged { SegTail(rest, ptr, size, end); }
    assert forall i :: 0 <= i < |tail| ==> tail[i].a != x.a;
    SegFrame(tail, ptr, size, end, x.a, First(tail, end), r[0].n);
    SegCons(r[0], tail, ptr[x.a := First(tail, end)], size[x.a := r[0].n], end);
  }

  /** Changing the last header of `pre` and what follows it. */
  lemma SegLast(pre: seq<Blk>, tail: seq<Blk>, ptr: Links, size: Sizes, end: int, other: int, n: nat)
    requires pre != [] && Separated(pre) && Seg(pre, ptr, size, other) && Seg(tail, ptr, size, end)
    requires var p := pre[|pre| - 1]; forall i :: 0 <= i < |tail| ==> tail[i].a != p.a
    ensures var k := |pre| - 1; var p := pre[k];
      Seg(pre[..k] + ([Blk(p.a, n)] + tail), ptr[p.a := First(tail, end)], size[p.a := n], end)
  {
    var k := |pre| - 1;
    var p, q := pre[k], First(tail, end);
    assert pre == pre[..k] + [p];
    SegSplit(pre[..k], [p], ptr, size, other);
    SegFrame(pre[..k], ptr, size, p.a, p.a, q, n);
    SegFrame(tail, ptr, size, end, p.a, q, n);
    var ptr', size' := ptr[p.a := q], size[p.a := n];
    assert Seg([Blk(p.a, n)], ptr', size', q);
    SegSplit([Blk(p.a, n)], tail, ptr', size', end);
    SegSplit(pre[..k], [Blk(p.a, n)] + tail, ptr', size', end);
  }

  /** Second half of `free`: the list before it is joined on. */
  lemma SegLeft(pre: seq<Blk>, xs: seq<Blk>, ptr: Links, size: Sizes, end: int, other: int)
    requires pre != [] && xs != [] && Separated(pre) && Separated(xs)
    requires pre[|pre| - 1].a + pre[|pre| - 1].n <= xs[0].a && pre[|pre| - 1].a < xs[0].a
    requires Seg(pre, ptr, size, other) && Seg(xs, ptr, size, end)
    ensures var p := pre[|pre| - 1];
      if p.a + p.n == xs[0].a then
        Seg(Left(pre, xs), ptr[p.a := First(xs[1..], end)], size[p.a := p.n + xs[0].n], end)
      else Seg(Left(pre, xs), ptr[p.a := xs[0].a], size[p.a := p.n], end)
  {
    var p := pre[|pre| - 1];
    if p.a + p.n == xs[0].a {
      assert xs == [xs[0]] + xs[1..];
      SegSplit([xs[0]], xs[1..], ptr, size, end);
      SegLast(pre, xs[1..], ptr, size, end, other, p.n + xs[0].n);
    } else {
      SegLast(pre, xs, ptr, size, end, other, p.n);
    }
  }

  // ----- taking a block out of the list

  /** `malloc` takes `n` units from the end of block `q`, or the whole block. */
  function Taken(bs: seq<Blk>, q: nat, n: nat): seq<Blk>
    requires q < |bs| && n <= bs[q].n
  {
    if bs[q].n == n then bs[..q] + bs[q + 1..] else bs[q := Blk(bs[q].a, bs[q].n - n)]
  }

  lemma TakenSeparated(bs: seq<Blk>, q: nat, n: nat)
    requires Separated(bs) && q < |bs| && n <= bs[q].n
    ensures Separated(Taken(bs, q, n))
  {
  }

  lemma CoversMid(pre: seq<Blk>, z: Blk, post: seq<Blk>, u: int)
    ensures Covers(pre + ([z] + post), u) <==> Covers(pre, u) || z.a <= u < z.a + z.n || Covers(post, u)
  {
    CoversOne(z, u);
    CoversJoin([z], post, u);
    CoversJoin(pre, [z] + post, u);
  }

  /** A unit of block `q` is in no other block. */
  lemma OnlyHere(bs: seq<Blk>, q: nat, u: int)
    requires Separated(bs) && q < |bs| && bs[q].a <= u < bs[q].a + bs[q].n
    ensures !Covers(bs[..q], u) && !Covers(bs[q + 1..], u)
  {
  }

  lemma TakenCovers(bs: seq<Blk>, q: nat, n: nat, u: int)
    requires Separated(bs) && q < |bs| && n <= bs[q].n
    ensures var x := bs[q].a + bs[q].n - n;
      Covers(Taken(bs, q, n), u) <==> Covers(bs, u) && !(x <= u < x + n)
  {
    var y := Blk(bs[q].a, bs[q].n - n);
    var pre, post := bs[..q], bs[q + 1..];
    assert bs == pre + ([bs[q]] + post);
    CoversMid(pre, bs[q], post, u);
    if bs[q].a <= u < bs[q].a + bs[q].n { OnlyHere(bs, q, u); }
    if bs[q].n == n {
      CoversJoin(pre, post, u);
    } else {
      assert bs[q := y] == pre + ([y] + post);
      CoversMid(pre, y, post, u);
    }
  }

  /** Exact fit: the predecessor is linked past the block. */
  lemma SegUnlink(bs: seq<Blk>, q: nat, ptr: Links, size: Sizes, end: int)
    requires Separated(bs) && 1 <= q < |bs| && Seg(bs, ptr, size, end)
    ensures Seg(bs[..q] + bs[q + 1..], ptr[bs[q - 1].a := After(bs, q, end)], size, end)
  {
    var bs', ptr' := bs[..q] + bs[q + 1..], ptr[bs[q - 1].a := After(bs, q, end)];
    forall i | 0 <= i < |bs'| ensures Node(bs'[i], ptr', size, After(bs', i, end)) {
      var j := if i < q then i else i + 1;
      assert bs'[i] == bs[j];
      assert Node(bs[j], ptr, size, After(bs, j, end));
    }
  }

  /** Tail of a larger block: only its size changes, and the new block gets a header. */
  lemma SegShrink(bs: seq<Blk>, q: nat, ptr: Links, size: Sizes, end: int, n: nat)
    requires Separated(bs) && q < |bs| && 0 < n < bs[q].n && Seg(bs, ptr, size, end)
    ensures var x := bs[q];
      Seg(bs[q := Blk(x.a, x.n - n)], ptr, size[x.a := x.n - n][x.a + (x.n - n) := n], end)
  {
    var x := bs[q];
    var bs', size' := bs[q := Blk(x.a, x.n - n)], size[x.a := x.n - n][x.a + (x.n - n) := n];
    forall i | 0 <= i < |bs'| ensures Node(bs'[i], ptr, size', After(bs', i, end)) {
      assert Node(bs[i], ptr, size, After(bs, i, end));
    }
  }

  // ----- live blocks

  function Span(b: int, n: nat): (r: set<int>)
    ensures forall u: int :: u in r <==> b <= u < b + n
  {
    if n == 0 then {} else Span(b, n - 1) + {b + n - 1}
  }

  ghost predicate InLive(live: Sizes, u: int) {
    exists a: int :: a in live && a <= u < a + live[a]
  }

  ghost predicate LiveApart(live: Sizes) {
    forall a: int, b: int :: a in live && b in live && a < b ==> a + live[a] <= b
  }

  /** Every unit obtained from `sbrk` is in exactly one free block or in exactly one live block. */
  ghost predicate Partition(bs: seq<Blk>, live: Sizes, arena: set<int>) {
    && LiveApart(live)
    && (forall a: int :: a in live ==> live[a] > 0)
    && (forall u: int :: u in arena <==> Covers(bs, u) || InLive(live, u))
    && (forall u: int :: !(Covers(bs, u) && InLive(live, u)))
  }

  /** A live block lies in one gap of the free list: some index `t` precedes it. */
  lemma FindGap(bs: seq<Blk>, live: Sizes, arena: set<int>, b: int) returns (t: nat)
    requires Separated(bs) && bs != [] && bs[0].n == 0 && bs[0].a < b
    requires forall i :: 1 <= i < |bs| ==> bs[i].n > 0
    requires Partition(bs, live, arena) && b in live
    ensures t < |bs| && bs[t].a + bs[t].n <= b && (t + 1 < |bs| ==> b + live[b] <= bs[t + 1].a)
    ensures forall i :: 0 <= i <= t ==> bs[i].a < b
    ensures forall i :: t < i < |bs| ==> b < bs[i].a
  {
    t := 0;
    while t + 1 < |bs| && bs[t + 1].a < b
      invariant t < |bs| && forall i :: 0 <= i <= t ==> bs[i].a < b
    {
      t := t + 1;
    }
    assert InLive(live, b);
    assert !Covers(bs, b);
    if t + 1 < |bs| {
      var y := bs[t + 1].a;
      assert Covers(bs, y);
      assert !InLive(live, y);
    }
    forall i | t < i < |bs| ensures b < bs[i].a {
      if i > t + 1 { assert bs[t + 1].a + bs[t + 1].n < bs[i].a; }
    }
  }

  lemma PartitionFree(bs: seq<Blk>, live: Sizes, arena: set<int>, b: int, t: nat)
    requires Partition(bs, live, arena) && b in live && t < |bs|
    ensures Partition(Insert(bs, t, Blk(b, live[b])), live - {b}, arena)
  {
    var x, live' := Blk(b, live[b]), live - {b};
    forall u: int
      ensures InLive(live', u) ==> InLive(live, u) && !(b <= u < b + live[b])
      ensures InLive(live, u) ==> InLive(live', u) || b <= u < b + live[b]
      ensures Covers(Insert(bs, t, x), u) <==> Covers(bs, u) || b <= u < b + live[b]
      ensures b <= u < b + live[b] ==> InLive(live, u)
    {
      InsertCovers(bs, t, x, u);
      if InLive(live', u) {
        var a: int :| a in live' && a <= u < a + live'[a];
        assert a in live;
        if a < b { assert a + live[a] <= b; } else { assert b + live[b] <= a; }
      }
      if InLive(live, u) {
        var a: int :| a in live && a <= u < a + live[a];
        assert a != b ==> a in live';
      }
    }
  }

  /** One more live block, where none was. */
  lemma LiveMore(live: Sizes, x: int, n: nat)
    requires LiveApart(live) && n > 0 && forall a: int :: a in live ==> live[a] > 0
    requires forall u: int :: x <= u < x + n ==> !InLive(live, u)
    ensures x !in live && LiveApart(live[x := n])
    ensures forall u: int :: InLive(live[x := n], u) <==> InLive(live, u) || x <= u < x + n
  {
    var live' := live[x := n];
    assert !InLive(live, x);
    forall u: int ensures InLive(live', u) <==> InLive(live, u) || x <= u < x + n {
      if InLive(live, u) {
        var a: int :| a in live && a <= u < a + live[a];
        assert a in live' && live'[a] == live[a];
      }
      if x <= u < x + n { assert x in live' && live'[x] == n; }
    }
    forall a: int, b: int | a in live' && b in live' && a < b ensures a + live'[a] <= b {
      assert a == x ==> InLive(live, b);
      assert b == x ==> !(a <= x < a + live[a]);
    }
  }

  lemma PartitionTake(bs: seq<Blk>, live: Sizes, arena: set<int>, q: nat, n: nat)
    requires Partition(bs, live, arena) && Separated(bs) && q < |bs| && 0 < n <= bs[q].n
    ensures var x := bs[q].a + bs[q].n - n;
      x !in live && Partition(Taken(bs, q, n), live[x := n], arena)
  {
    var x := bs[q].a + bs[q].n - n;
    var live' := live[x := n];
    forall u: int
      ensures Covers(Taken(bs, q, n), u) <==> Covers(bs, u) && !(x <= u < x + n)
      ensures x <= u < x + n ==> Covers(bs, u)
    {
      TakenCovers(bs, q, n, u);
    }
    LiveMore(live, x, n);
  }

  lemma PartitionGrow(bs: seq<Blk>, live: Sizes, arena: set<int>, b: int, n: nat)
    requires Partition(bs, live, arena) && n > 0
    requires forall u: int :: b <= u < b + n ==> u !in arena
    ensures b !in live && Partition(bs, live[b := n], arena + Span(b, n))
  {
    forall u: int | b <= u < b + n ensures !InLive(live, u) {
      assert u !in arena;
    }
    LiveMore(live, b, n);
  }

  /** Memory after the first `if` of `free`. */
  function LinkRight(ptr: Links, size: Sizes, p: int, bp: int): (Links, Sizes)
    requires p in ptr && bp in size && ptr[p] in ptr && ptr[p] in size
  {
    if bp + size[bp] == ptr[p] then (ptr[bp := ptr[ptr[p]]], size[bp := size[bp] + size[ptr[p]]])
    else (ptr[bp := ptr[p]], size)
  }

  /** Memory after the second `if` of `free`. */
  function LinkLeft(ptr: Links, size: Sizes, p: int, bp: int): (Links, Sizes)
    requires p in size && bp in size && bp in ptr
  {
    if p + size[p] == bp then (ptr[p := ptr[bp]], size[p := size[p] + size[bp]])
    else (ptr[p := bp], size)
  }

  ghost predicate IsList(bs: seq<Blk>, ptr: Links, size: Sizes, base: int) {
    && bs != [] && bs[0] == Blk(base, 0) && Separated(bs) && Seg(bs, ptr, size, base)
    && (forall i :: 1 <= i < |bs| ==> bs[i].n > 0)
  }

  lemma FreeRight(bs: seq<Blk>, ptr: Links, size: Sizes, base: int, t: nat, x: Blk)
    requires IsList(bs, ptr, size, base) && t < |bs| && x.n > 0 && x.a in size && size[x.a] == x.n
    requires bs[t].a + bs[t].n <= x.a && bs[t].a < x.a && (t + 1 < |bs| ==> x.a + x.n <= bs[t + 1].a)
    ensures bs[t].a in ptr && ptr[bs[t].a] in ptr && ptr[bs[t].a] in size
    ensures var (ptr1, size1) := LinkRight(ptr, size, bs[t].a, x.a);
      && Seg(Right(x, bs[t + 1..]), ptr1, size1, base)
      && Seg(bs[..t + 1], ptr1, size1, First(bs[t + 1..], base))
  {
    var pre, rest := bs[..t + 1], bs[t + 1..];
    assert bs == pre + rest;
    SegSplit(pre, rest, ptr, size, base);
    SegRight(x, rest, ptr, size, base);
    var r := Right(x, rest);
    assert forall i :: 0 <= i < |pre| ==> pre[i].a != x.a;
    SegFrame(pre, ptr, size, First(rest, base), x.a, First(r[1..], base), r[0].n);
    RightLinked(bs, ptr, size, base, t, x);
  }

  /** The first `if` of `free` sets up the header of the block before the rest of the list. */
  lemma RightLinked(bs: seq<Blk>, ptr: Links, size: Sizes, base: int, t: nat, x: Blk)
    requires IsList(bs, ptr, size, base) && t < |bs| && x.n > 0 && x.a in size && size[x.a] == x.n
    requires bs[t].a + bs[t].n <= x.a && bs[t].a < x.a && (t + 1 < |bs| ==> x.a + x.n <= bs[t + 1].a)
    ensures bs[t].a in ptr && ptr[bs[t].a] in ptr && ptr[bs[t].a] in size
    ensures var r := Right(x, bs[t + 1..]);
      LinkRight(ptr, size, bs[t].a, x.a) == (ptr[x.a := First(r[1..], base)], size[x.a := r[0].n])
  {
    var rest := bs[t + 1..];
    assert Node(bs[t], ptr, size, After(bs, t, base));
    assert Node(bs[Succ(t, |bs|)], ptr, size, After(bs, Succ(t, |bs|), base));
    assert bs[0].a <= bs[t].a;
    if rest != [] && x.a + x.n == rest[0].a {
      assert Right(x, rest)[1..] == rest[1..];
      assert After(bs, t + 1, base) == First(rest[1..], base);
    } else {
      assert Right(x, rest)[1..] == rest;
      assert size[x.a := x.n] == size;
    }
  }

  /** The new list starts with `base` and has no other empty block. */
  lemma InsertShape(bs: seq<Blk>, t: nat, x: Blk, base: int)
    requires bs != [] && bs[0] == Blk(base, 0) && t < |bs| && x.n > 0 && bs[t].a < x.a
    requires forall i :: 1 <= i < |bs| ==> bs[i].n > 0
    ensures var r := Insert(bs, t, x);
      t < |r| && r[t].a == bs[t].a && r[0] == Blk(base, 0) && forall i :: 1 <= i < |r| ==> r[i].n > 0
  {
  }

  lemma FreeLinks(bs: seq<Blk>, ptr: Links, size: Sizes, base: int, t: nat, x: Blk)
    requires IsList(bs, ptr, size, base) && t < |bs| && x.n > 0 && x.a in size && size[x.a] == x.n
    requires bs[t].a + bs[t].n <= x.a && bs[t].a < x.a && (t + 1 < |bs| ==> x.a + x.n <= bs[t + 1].a)
    requires bs[t].a in ptr && ptr[bs[t].a] in ptr && ptr[bs[t].a] in size
    ensures var (ptr1, size1) := LinkRight(ptr, size, bs[t].a, x.a);
      && bs[t].a in size1 && x.a in size1 && x.a in ptr1
      && var (ptr2, size2) := LinkLeft(ptr1, size1, bs[t].a, x.a);
      && IsList(Insert(bs, t, x), ptr2, size2, base)
      && Insert(bs, t, x)[t].a == bs[t].a
  {
    FreeRight(bs, ptr, size, base, t, x);
    var (ptr1, size1) := LinkRight(ptr, size, bs[t].a, x.a);
    var pre, rest := bs[..t + 1], bs[t + 1..];
    var xs := Right(x, rest);
    RightSeparated(x, rest);
    InsertSeparated(bs, t, x);
    InsertShape(bs, t, x, base);
    assert Node(pre[t], ptr1, size1, After(pre, t, First(rest, base)));
    assert Node(xs[0], ptr1, size1, After(xs, 0, base));
    SegLeft(pre, xs, ptr1, size1, base, First(rest, base));
    assert size1[bs[t].a := bs[t].n] == size1;
    assert After(xs, 0, base) == First(xs[1..], base);
  }

  lemma InsertBig(bs: seq<Blk>, t: nat, x: Blk)
    requires t < |bs|
    ensures exists i :: 0 <= i < |Insert(bs, t, x)| && Insert(bs, t, x)[i].n >= x.n
  {
    var r, pre := Insert(bs, t, x), bs[..t + 1];
    var xs := Right(x, bs[t + 1..]);
    if pre[t].a + pre[t].n == xs[0].a {
      assert r[t].n >= x.n;
    } else {
      assert r[t + 1].n >= x.n;
    }
  }

  /** A header of the free list is not a header of a live block. */
  lemma FreeNotLive(bs: seq<Blk>, live: Sizes, arena: set<int>, i: nat)
    requires Partition(bs, live, arena) && i < |bs| && bs[i].n > 0
    ensures bs[i].a !in live
  {
    assert Covers(bs, bs[i].a);
    assert bs[i].a in live ==> InLive(live, bs[i].a);
  }

  /** A header written into fresh memory disturbs neither the list nor live headers. */
  lemma GrowLinks(bs: seq<Blk>, ptr: Links, size: Sizes, base: int, live: Sizes, arena: set<int>, b: int, n: nat)
    requires IsList(bs, ptr, size, base) && Partition(bs, live, arena) && b > base
    requires forall u: int :: u in Span(b, n) ==> u !in arena
    requires n > 0
    ensures IsList(bs, ptr, size[b := n], base) && b !in live
  {
    assert b in Span(b, n);
    forall i | 0 <= i < |bs| ensures bs[i].a != b {
      if i > 0 { assert Covers(bs, bs[i].a); }
    }
    forall i | 0 <= i < |bs| ensures Node(bs[i], ptr, size[b := n], After(bs, i, base)) {
      assert Node(bs[i], ptr, size, After(bs, i, base));
    }
    assert b in live ==> InLive(live, b);
  }

  lemma TakeLinks(bs: seq<Blk>, ptr: Links, size: Sizes, base: int, q: nat, n: nat)
    requires IsList(bs, ptr, size, base) && 1 <= q < |bs| && 0 < n <= bs[q].n
    ensures bs[q].a in ptr
    ensures if bs[q].n == n then IsList(Taken(bs, q, n), ptr[bs[q - 1].a := ptr[bs[q].a]], size, base)
      else IsList(Taken(bs, q, n), ptr, size[bs[q].a := bs[q].n - n][bs[q].a + (bs[q].n - n) := n], base)
  {
    assert Node(bs[q], ptr, size, After(bs, q, base));
    TakenSeparated(bs, q, n);
    if bs[q].n == n {
      SegUnlink(bs, q, ptr, size, base);
    } else {
      SegShrink(bs, q, ptr, size, base, n);
    }
  }

  /** Cutting a free block touches no header of a live block. */
  lemma HeaderApart(bs: seq<Blk>, live: Sizes, arena: set<int>, base: int, q: nat, n: nat)
    requires Partition(bs, live, arena) && Separated(bs) && bs != [] && bs[0].a == base
    requires 1 <= q < |bs| && 0 < n <= bs[q].n
    ensures bs[q].a !in live && bs[q].a + (bs[q].n - n) !in live && bs[q].a > base
  {
    FreeNotLive(bs, live, arena, q);
    var x := bs[q].a + (bs[q].n - n);
    assert Covers(bs, x);
    assert x in live ==> InLive(live, x);
  }

  lemma StartList(ptr: Links, size: Sizes, base: int)
    requires base in ptr && ptr[base] == base && base in size && size[base] == 0
    ensures IsList([Blk(base, 0)], ptr, size, base) && Partition([Blk(base, 0)], map[], {})
  {
  }

  ghost predicate Headers(live: Sizes, size: Sizes, base: int) {
    forall a: int :: a in live ==> a > base && a in size && size[a] == live[a]
  }

  /** Everything the allocator keeps, once `base` is set up. */
  ghost predicate HeapOk(bs: seq<Blk>, ptr: Links, size: Sizes, base: int, live: Sizes, arena: set<int>) {
    IsList(bs, ptr, size, base) && Headers(live, size, base) && Partition(bs, live, arena)
  }

  lemma TakeWhole(bs: seq<Blk>, ptr: Links, size: Sizes, base: int, live: Sizes, arena: set<int>, q: nat)
    returns (bs': seq<Blk>)
    requires HeapOk(bs, ptr, size, base, live, arena) && 1 <= q < |bs| && bs[q].a in ptr
    ensures bs[q].a !in live && q <= |bs'| && bs'[q - 1].a == bs[q - 1].a
    ensures HeapOk(bs', ptr[bs[q - 1].a := ptr[bs[q].a]], size, base, live[bs[q].a := bs[q].n], arena)
  {
    TakeLinks(bs, ptr, size, base, q, bs[q].n);
    PartitionTake(bs, live, arena, q, bs[q].n);
    HeaderApart(bs, live, arena, base, q, bs[q].n);
    assert Node(bs[q], ptr, size, After(bs, q, base));
    bs' := Taken(bs, q, bs[q].n);
  }

  lemma TakeTail(bs: seq<Blk>, ptr: Links, size: Sizes, base: int, live: Sizes, arena: set<int>, q: nat, n: nat)
    returns (bs': seq<Blk>, size': Sizes, live': Sizes)
    requires HeapOk(bs, ptr, size, base, live, arena) && 1 <= q < |bs| && 0 < n < bs[q].n
    ensures q <= |bs'| && bs'[q - 1].a == bs[q - 1].a
    ensures var x := bs[q].a + (bs[q].n - n);
      x !in live && size' == size[bs[q].a := bs[q].n - n][x := n] && live' == live[x := n]
    ensures HeapOk(bs', ptr, size', base, live', arena)
  {
    TakeLinks(bs, ptr, size, base, q, n);
    PartitionTake(bs, live, arena, q, n);
    HeaderApart(bs, live, arena, base, q, n);
    var x := bs[q].a + (bs[q].n - n);
    bs', size', live' := Taken(bs, q, n), size[bs[q].a := bs[q].n - n][x := n], live[x := n];
  }

  /** Memory after `free` has linked block `bp` in after block `p`. */
  function Relinked(ptr: Links, size: Sizes, p: int, bp: int): (Links, Sizes)
    requires p in ptr && bp in size && ptr[p] in ptr && ptr[p] in size && p in size
  {
    var (ptr1, size1) := LinkRight(ptr, size, p, bp);
    LinkLeft(ptr1, size1, p, bp)
  }

  lemma FreeStep(bs: seq<Blk>, ptr: Links, size: Sizes, base: int, live: Sizes, arena: set<int>, t: nat, bp: int)
    returns (bs': seq<Blk>, ptr': Links, size': Sizes, live': Sizes)
    requires HeapOk(bs, ptr, size, base, live, arena) && t < |bs| && bp in live
    requires bs[t].a + bs[t].n <= bp && (t + 1 < |bs| ==> bp + live[bp] <= bs[t + 1].a)
    ensures var p := bs[t].a;
      && p in ptr && bp in size && ptr[p] in ptr && ptr[p] in size && p in size
      && ptr' == Relinked(ptr, size, p, bp).0 && size' == Relinked(ptr, size, p, bp).1 && live' == live - {bp}
    ensures HeapOk(bs', ptr', size', base, live', arena)
    ensures t < |bs'| && bs'[t].a == bs[t].a
    ensures exists i :: 0 <= i < |bs'| && bs'[i].n >= live[bp]
  {
    var x := Blk(bp, live[bp]);
    assert Node(bs[t], ptr, size, After(bs, t, base));
    if t > 0 { FreeNotLive(bs, live, arena, t); }
    assert bs[t].a < bp;
    FreeRight(bs, ptr, size, base, t, x);
    FreeLinks(bs, ptr, size, base, t, x);
    PartitionFree(bs, live, arena, bp, t);
    InsertBig(bs, t, x);
    var mem := Relinked(ptr, size, bs[t].a, bp);
    bs', ptr', size', live' := Insert(bs, t, x), mem.0, mem.1, live - {bp};
  }

  // ----- the code

  function Units(nbytes: nat): nat {
    (nbytes + HEADER_BYTES - 1) / HEADER_BYTES + 1
  }

  function Core(nunits: nat): nat { if nunits < MIN_CORE then MIN_CORE else nunits }

  /** The bytes `sbrk` is asked for: the product as the `int` of its parameter. */
  function SbrkArg(nu: nat): int {
    var w := nu * HEADER_BYTES % 0x1_0000_0000;
    if w < 0x8000_0000 then w else w - 0x1_0000_0000
  }

  /** The units the process has once `growproc` has moved the break from unit `b`; below 0 it does not move. */
  ghost function Moved(granted: set<int>, b: int, arg: int): set<int> {
    if arg >= 0 then granted + Span(b, arg / HEADER_BYTES)
    else if b * HEADER_BYTES + arg < 0 then granted
    else set u | u in granted && u < (b * HEADER_BYTES + arg) / HEADER_BYTES
  }

  /** `morecore` can ask for what it wants. */
  predicate Fits(nunits: nat) { Core(nunits) * HEADER_BYTES < 0x8000_0000 }

  /** The block that `morecore` adds is all memory obtained just when the request fits an `int`. */
  lemma MovedExact(granted: set<int>, b: int, nunits: nat)
    requires forall u: int :: u in granted ==> u < b
    ensures Moved(granted, b, SbrkArg(Core(nunits))) == granted + Span(b, Core(nunits)) <==> Fits(nunits)
  {
    var nu, arg := Core(nunits), SbrkArg(Core(nunits));
    if Fits(nunits) {
      assert arg == nu * HEADER_BYTES && arg / HEADER_BYTES == nu;
    } else {
      assert arg / HEADER_BYTES < nu;
      assert b + nu - 1 in Span(b, nu) && b + nu - 1 !in granted;
      assert b + nu - 1 !in Moved(granted, b, arg);
    }
  }

  /** Index `i` lies strictly after `f` and before `q` on the cycle. */
  ghost predicate Between(f: nat, q: nat, i: nat) {
    if f < q then f < i < q else i > f || i < q
  }

  ghost predicate SmallBetween(bs: seq<Blk>, f: nat, q: nat, n: nat) {
    forall i :: 0 <= i < |bs| && Between(f, q, i) ==> bs[i].n < n
  }

  lemma SmallNext(bs: seq<Blk>, f: nat, q: nat, n: nat)
    requires f < |bs| && q < |bs|
    ensures SmallBetween(bs, f, Succ(f, |bs|), n)
    ensures SmallBetween(bs, f, q, n) && bs[q].n < n && q != f ==> SmallBetween(bs, f, Succ(q, |bs|), n)
    ensures SmallBetween(bs, f, f, n) && bs[f].n < n ==> forall i :: 0 <= i < |bs| ==> bs[i].n < n
  {
  }

  function Distance(f: nat, q: nat, n: nat): int {
    if q > f then n - q + f else f - q
  }

  /** The arena after `morecore`, and whether it is memory obtained from `sbrk`. */
  ghost predicate Grown(arena: set<int>, arena': set<int>, granted': set<int>, b: int, nunits: nat) {
    && arena' == arena + Span(b, Core(nunits)) && granted' == Moved(arena, b, SbrkArg(Core(nunits)))
    && (arena' == granted' <==> Fits(nunits))
  }

  lemma GrownExact(arena: set<int>, b: int, nunits: nat) returns (granted: set<int>)
    requires forall u: int :: u in arena ==> u < b
    ensures Grown(arena, arena + Span(b, Core(nunits)), granted, b, nunits)
  {
    granted := Moved(arena, b, SbrkArg(Core(nunits)));
    MovedExact(arena, b, nunits);
  }

  class Heap {
    const base: int              // address of the static header `base`
    var ptr: Links
    var size: Sizes
    var freep: int               // 0 before the first `malloc`

    ghost var bs: seq<Blk>       // the free list in address order
    ghost var f: nat             // index of `freep`
    ghost var live: Sizes        // blocks handed out: header address and units
    ghost var arena: set<int>    // units of all blocks, free and live
    ghost var granted: set<int>  // units obtained from `sbrk`

    ghost predicate Valid()
      reads this
    {
      && base > 0
      && if freep == 0 then live == map[] && arena == {} && granted == {}
         else HeapOk(bs, ptr, size, base, live, arena) && f < |bs| && freep == bs[f].a
    }

    constructor (base: int)
      requires base > 0
      ensures Valid() && live == map[] && arena == granted == {} && this.base == base
    {
      this.base := base;
      ptr, size, freep := map[], map[], 0;
      bs, f, live, arena, granted := [], 0, map[], {}, {};
    }

    /** The search loop of `free`: ends at the free block that precedes `bp` in the cycle. */
    method FindSlot(bp: int) returns (p: int, ghost t: nat)
      requires freep != 0 && Valid() && bp in live
      ensures t < |bs| && p == bs[t].a && bs[t].a + bs[t].n <= bp
      ensures t + 1 < |bs| ==> bp + live[bp] <= bs[t + 1].a
    {
      t := FindGap(bs, live, arena, bp);
      p := freep;
      ghost var k := f;
      assert Node(bs[k], ptr, size, After(bs, k, base));
      while !(bp > p && bp < ptr[p])
        invariant k < |bs| && Node(bs[k], ptr, size, bs[Succ(k, |bs|)].a) && p == bs[k].a
        decreases if k <= t then t - k else |bs| - k + t
      {
        if p >= ptr[p] && (bp > p || bp < ptr[p]) {
          break;
        }
        p := ptr[p];
        k := Succ(k, |bs|);
        assert Node(bs[k], ptr, size, After(bs, k, base));
      }
      assert k == t;
    }

    /** `free`: `bp` is the header of a block handed out before. */
    method Free(bp: int)
      requires freep != 0 && Valid() && bp in live
      modifies this
      ensures freep != 0 && Valid()
      ensures live == old(live) - {bp} && arena == old(arena) && granted == old(granted)
      ensures exists i :: 0 <= i < |bs| && bs[i].n >= old(live[bp])
    {
      var p, t := FindSlot(bp);
      LinkIn(p, bp, t);
    }

    /** The rest of `free`, with the block `p` that precedes `bp`. */
    method LinkIn(p: int, bp: int, ghost t: nat)
      requires freep != 0 && Valid() && bp in live && t < |bs| && p == bs[t].a && bs[t].a + bs[t].n <= bp
      requires t + 1 < |bs| ==> bp + live[bp] <= bs[t + 1].a
      modifies this
      ensures freep != 0 && Valid()
      ensures live == old(live) - {bp} && arena == old(arena) && granted == old(granted)
      ensures exists i :: 0 <= i < |bs| && bs[i].n >= old(live[bp])
    {
      ghost var bs', ptr', size', live' := FreeStep(bs, ptr, size, base, live, arena, t, bp);
      Relink(p, bp);
      assert ptr == ptr' && size == size';
      freep := p;
      bs, f, live := bs', t, live';
    }

    /** The two `if` statements of `free`. */
    method Relink(p: int, bp: int)
      requires p in ptr && ptr[p] in ptr && ptr[p] in size && p in size && bp in size
      modifies this`ptr, this`size
      ensures ptr == Relinked(old(ptr), old(size), p, bp).0 && size == Relinked(old(ptr), old(size), p, bp).1
    {
      if bp + size[bp] == ptr[p] {
        var q := ptr[p];
        size := size[bp := size[bp] + size[q]];
        ptr := ptr[bp := ptr[q]];
      } else {
        ptr := ptr[bp := ptr[p]];
      }
      if p + size[p] == bp {
        size := size[p := size[p] + size[bp]];
        ptr := ptr[p := ptr[bp]];
      } else {
        ptr := ptr[p := bp];
      }
    }

    /** What `sbrk` returns, if it succeeds: the break, above all memory so far. */
    ghost predicate AtBreak(brk: Option<int>)
      reads this
    {
      brk.Some? ==> brk.value > base && forall u: int :: u in arena || u in granted ==> u < brk.value
    }

    /**
     * `morecore`: `brk` is what `sbrk` returns, `None` for failure.  The new block is all memory obtained from `sbrk`
     * just when its size in bytes fits an `int`.
     */
    method Morecore(nunits: nat, brk: Option<int>) returns (ok: bool)
      requires freep != 0 && Valid() && arena == granted && AtBreak(brk)
      modifies this
      ensures freep != 0 && Valid() && live == old(live) && ok == brk.Some?
      ensures !ok ==> arena == granted == old(arena)
      ensures ok ==> Grown(old(arena), arena, granted, brk.value, nunits)
      ensures ok ==> exists i :: 0 <= i < |bs| && bs[i].n >= nunits
    {
      if brk.None? {
        return false;
      }
      var nu := if nunits < MIN_CORE then MIN_CORE else nunits;
      ghost var got := GrownExact(arena, brk.value, nunits);
      FreeCore(brk.value, nu);
      granted := got;
      ok := true;
    }

    /** Puts the new block on the list. */
    method FreeCore(hp: int, nu: nat)
      requires freep != 0 && Valid() && nu > 0 && hp > base && forall u: int :: u in arena ==> u < hp
      modifies this
      ensures freep != 0 && Valid() && live == old(live) && arena == old(arena) + Span(hp, nu)
      ensures exists i :: 0 <= i < |bs| && bs[i].n >= nu
    {
      AddCore(hp, nu);
      Free(hp);
    }

    /** The header of the new block, which `free` then puts on the list. */
    method AddCore(hp: int, nu: nat)
      requires freep != 0 && Valid() && nu > 0 && hp > base && forall u: int :: u in arena ==> u < hp
      modifies this`size, this`live, this`arena
      ensures Valid() && live == old(live)[hp := nu] && hp !in old(live) && arena == old(arena) + Span(hp, nu)
    {
      GrowLinks(bs, ptr, size, base, live, arena, hp, nu);
      PartitionGrow(bs, live, arena, hp, nu);
      size := size[hp := nu];
      live, arena := live[hp := nu], arena + Span(hp, nu);
    }

    /** The branch of `malloc` that has found a block: its tail is cut off, or it is unlinked whole. */
    method Take(prevp: int, p: int, nunits: nat, ghost q: nat) returns (hp: int)
      requires freep != 0 && Valid() && 1 <= q < |bs| && p == bs[q].a && prevp == bs[q - 1].a
      requires 0 < nunits <= bs[q].n
      modifies this
      ensures freep != 0 && Valid() && arena == old(arena) && granted == old(granted)
      ensures hp > 0 && hp !in old(live) && live == old(live)[hp := nunits]
    {
      assert Node(bs[q], ptr, size, After(bs, q, base));
      if size[p] == nunits {
        hp := p;
        TakeBlock(prevp, p, q);
      } else {
        hp := CutTail(prevp, p, nunits, q);
      }
    }

    method TakeBlock(prevp: int, p: int, ghost q: nat)
      requires freep != 0 && Valid() && 1 <= q < |bs| && p == bs[q].a && prevp == bs[q - 1].a
      modifies this`ptr, this`freep, this`bs, this`f, this`live
      ensures freep != 0 && Valid() && p > 0 && p !in old(live) && live == old(live)[p := old(bs)[q].n]
    {
      assert Node(bs[q], ptr, size, After(bs, q, base));
      ghost var bs' := TakeWhole(bs, ptr, size, base, live, arena, q);
      ptr := ptr[prevp := ptr[p]];
      freep := prevp;
      live := live[p := bs[q].n];
      bs, f := bs', q - 1;
    }

    method CutTail(prevp: int, p: int, nunits: nat, ghost q: nat) returns (hp: int)
      requires freep != 0 && Valid() && 1 <= q < |bs| && p == bs[q].a && prevp == bs[q - 1].a
      requires 0 < nunits < bs[q].n
      modifies this
      ensures freep != 0 && Valid() && arena == old(arena) && granted == old(granted)
      ensures hp > 0 && hp !in old(live) && live == old(live)[hp := nunits]
    {
      assert Node(bs[q], ptr, size, After(bs, q, base));
      ghost var bs', size', live' := TakeTail(bs, ptr, size, base, live, arena, q, nunits);
      hp := p + (size[p] - nunits);
      size := size[p := size[p] - nunits][hp := nunits];
      assert size == size';
      freep := prevp;
      bs, f, live := bs', q - 1, live';
    }

    /** One pass of the loop of `malloc` around the cycle, from `freep` until it comes back there. */
    method Search(nunits: nat) returns (found: bool, prevp: int, p: int, ghost q: nat)
      requires freep != 0 && Valid() && nunits > 0
      ensures found ==> 1 <= q < |bs| && p == bs[q].a && prevp == bs[q - 1].a && nunits <= bs[q].n
      ensures !found ==> forall i :: 0 <= i < |bs| ==> bs[i].n < nunits
    {
      prevp := freep;
      assert Node(bs[f], ptr, size, After(bs, f, base));
      p := ptr[prevp];
      q := Succ(f, |bs|);
      SmallNext(bs, f, f, nunits);
      while true
        invariant q < |bs| && p == bs[q].a && (q > 0 ==> prevp == bs[q - 1].a)
        invariant SmallBetween(bs, f, q, nunits)
        decreases Distance(f, q, |bs|)
      {
        assert Node(bs[q], ptr, size, After(bs, q, base));
        if size[p] >= nunits {
          return true, prevp, p, q;
        }
        SmallNext(bs, f, q, nunits);
        if p == freep {
          assert q == f;
          return false, prevp, p, q;
        }
        prevp := p;
        p := ptr[p];
        q := Succ(q, |bs|);
      }
    }

    ghost predicate HasRoom(nunits: nat)
      reads this
    {
      freep != 0 && exists i :: 0 <= i < |bs| && bs[i].n >= nunits
    }

    /**
     * `malloc`: 0, or the payload address of a new live block with room for `nbytes` bytes.
     * A pass that fails is repeated once after `morecore`, and then finds a block.  Free and live blocks stay
     * what `sbrk` gave just when a free block was large enough, `sbrk` failed, or the request fits an `int`.
     */
    method Malloc(nbytes: nat, brk: Option<int>) returns (r: int)
      requires Valid() && arena == granted && AtBreak(brk) && nbytes < 0x1_0000_0000
      modifies this
      ensures freep != 0 && Valid()
      ensures r == 0 <==> !old(HasRoom(Units(nbytes))) && brk.None?
      ensures r == 0 ==> live == old(live) && arena == granted == old(arena)
      ensures r != 0 ==> r - 1 !in old(live) && live == old(live)[r - 1 := Units(nbytes)]
      ensures r != 0 ==> (Units(nbytes) - 1) * HEADER_BYTES >= nbytes
      ensures old(HasRoom(Units(nbytes))) ==> arena == granted == old(arena)
      ensures !old(HasRoom(Units(nbytes))) && brk.Some? ==> Grown(old(arena), arena, granted, brk.value, Units(nbytes))
      ensures arena == granted <==> old(HasRoom(Units(nbytes))) || brk.None? || Fits(Units(nbytes))
    {
      if freep == 0 {
        Setup();
      }
      r := FindAndTake(Units(nbytes), brk);
      if r != 0 {
        r := r + 1;
      }
    }

    method FindAndTake(nunits: nat, brk: Option<int>) returns (hp: int)
      requires freep != 0 && Valid() && nunits > 0 && arena == granted && AtBreak(brk)
      modifies this
      ensures freep != 0 && Valid()
      ensures hp == 0 <==> !old(HasRoom(nunits)) && brk.None?
      ensures hp == 0 ==> live == old(live)
      ensures hp != 0 ==> hp > 0 && hp !in old(live) && live == old(live)[hp := nunits]
      ensures old(HasRoom(nunits)) || brk.None? ==> arena == granted == old(arena)
      ensures !old(HasRoom(nunits)) && brk.Some? ==> Grown(old(arena), arena, granted, brk.value, nunits)
    {
      var found, prevp, p, q := Search(nunits);
      if found {
        hp := Take(prevp, p, nunits, q);
      } else {
        hp := GrowAndTake(nunits, brk);
      }
    }

    /** The second pass of `malloc`, after `morecore`. */
    method GrowAndTake(nunits: nat, brk: Option<int>) returns (hp: int)
      requires freep != 0 && Valid() && nunits > 0 && arena == granted && AtBreak(brk)
      modifies this
      ensures freep != 0 && Valid()
      ensures hp == 0 <==> brk.None?
      ensures hp == 0 ==> live == old(live) && arena == granted == old(arena)
      ensures hp != 0 ==> hp > 0 && hp !in old(live) && live == old(live)[hp := nunits]
      ensures hp != 0 ==> Grown(old(arena), arena, granted, brk.value, nunits)
    {
      var ok := Morecore(nunits, brk);
      if !ok {
        return 0;
      }
      var found, prevp, p, q := Search(nunits);
      hp := Take(prevp, p, nunits, q);
    }

    /** The first call: `base` becomes a list of one empty block. */
    method Setup()
      requires freep == 0 && Valid()
      modifies this
      ensures freep != 0 && Valid() && live == old(live) && arena == old(arena) && granted == old(granted)
      ensures forall i :: 0 <= i < |bs| ==> bs[i].n == 0
    {
      ptr, size, freep := ptr[base := base], size[base := 0], base;
      bs, f := [Blk(base, 0)], 0;
      StartList(ptr, size, base);
    }
  }

  /** A request for all but one byte of 4 GiB asks `sbrk` for 16 bytes and returns a block of 4 GiB. */
  method HugeRequest(h: Heap, b: int) returns (r: int)
    requires h.Valid() && h.freep == 0 && h.base < b
    modifies h
    ensures r != 0 && h.live == map[r - 1 := 0x1000_0001]
    ensures h.granted == {b} && h.arena == Span(b, 0x1000_0001)
  {
    r := h.Malloc(0xFFFF_FFFF, Some(b));
    assert Units(0xFFFF_FFFF) == 0x1000_0001 && SbrkArg(0x1000_0001) == 16;
    assert h.granted == {} + Span(b, 1);
  }
}
