/** Three-level page tables (Sv39) in page frames, and the flat map from page numbers to entries they stand for. */
module PageTable {
  /** A 64-bit word of a page, read as an entry; `perm` is its flags without the valid bit. */
  datatype Pte = Pte(valid: bool, perm: nat, frame: nat)

  const NULL := Pte(false, 0, 0)
  const MAXVPN := 0x400_0000          // pages below MAXVA

  function Fill(n: nat): (r: seq<Pte>)
    ensures |r| == n && forall i :: 0 <= i < n ==> r[i] == NULL
  {
    if n == 0 then [] else Fill(n - 1) + [NULL]
  }

  const ZERO := Fill(512)

  /** A table page: level 2 is the root, `prefix` the page-number bits above it. */
  datatype Node = Node(level: nat, prefix: nat)

  const ROOT := Node(2, 0)

  function Child(n: Node, i: nat): Node {
    Node(if n.level > 0 then n.level - 1 else 0, n.prefix * 512 + i)
  }

  function Parent(n: Node): Node {
    Node(n.level + 1, n.prefix / 512)
  }

  /** `PX(level, va)` of page `vpn`. */
  function Px(level: nat, vpn: nat): (i: nat)
    ensures i < 512
  {
    if level == 2 then vpn / 262144 % 512 else if level == 1 then vpn / 512 % 512 else vpn % 512
  }

  /** The table page of a level on the path to page `vpn`. */
  function OnPath(level: nat, vpn: nat): Node {
    if level == 2 then ROOT else if level == 1 then Node(1, vpn / 262144) else Node(0, vpn / 512)
  }

  lemma PathChild(level: nat, vpn: nat)
    requires 0 < level <= 2 && vpn < MAXVPN
    ensures Child(OnPath(level, vpn), Px(level, vpn)) == OnPath(level - 1, vpn)
  {
    if level == 1 {
      var q := vpn / 512;
      assert vpn / 262144 == q / 512;
    }
  }

  lemma ChildParent(n: Node, i: nat)
    requires n.level > 0 && i < 512
    ensures Parent(Child(n, i)) == n && Child(n, i).prefix % 512 == i
  {
  }

  // ---------------------------------------------------------------- invariant

  /** Frames: their contents, and which of them the allocator has free. */
  datatype Mem = Mem(page: seq<seq<Pte>>, free: seq<bool>)

  /** The frame of each table page, and the other way round. */
  datatype Tab = Tab(at: map<Node, nat>, node: map<nat, Node>)

  ghost predicate Framed(m: Mem, t: Tab, n: Node) {
    && n in t.at && n.level <= 2
    && t.at[n] < |m.page| == |m.free| && !m.free[t.at[n]] && |m.page[t.at[n]]| == 512
    && t.at[n] in t.node && t.node[t.at[n]] == n
  }

  /** An entry of an inner table page is valid just when the page below exists, and then points to it. */
  ghost predicate Pointed(m: Mem, t: Tab, n: Node, i: nat) {
    n in t.at && n.level > 0 && i < 512 && Framed(m, t, n) ==>
      var e := m.page[t.at[n]][i];
      && (e.valid <==> Child(n, i) in t.at)
      && (e.valid ==> e.perm == 0 && e.frame == t.at[Child(n, i)])
  }

  ghost predicate Hung(t: Tab, n: Node) {
    n.level < 2 ==> Parent(n) in t.at
  }

  ghost predicate Exact(t: Tab, f: nat) {
    f in t.node ==> t.node[f] in t.at && t.at[t.node[f]] == f
  }

  ghost predicate TableOk(m: Mem, t: Tab) {
    && ROOT in t.at
    && (forall f: nat {:trigger Exact(t, f)} :: Exact(t, f))
    && (forall n: Node {:trigger Framed(m, t, n)} :: n in t.at ==> Framed(m, t, n))
    && (forall n: Node, i: nat {:trigger Pointed(m, t, n, i)} :: Pointed(m, t, n, i))
    && (forall n: Node {:trigger Hung(t, n)} :: n in t.at ==> Hung(t, n))
  }

  /** The entry of a page: NULL where no bottom table page exists. */
  function Flat(m: Mem, t: Tab, vpn: nat): Pte {
    var n := OnPath(0, vpn);
    if n in t.at && t.at[n] < |m.page| && |m.page[t.at[n]]| == 512 then m.page[t.at[n]][Px(0, vpn)] else NULL
  }

  /** Two pages share an entry just when they are the same page. */
  lemma SlotUnique(m: Mem, t: Tab, x: nat, y: nat)
    requires TableOk(m, t) && OnPath(0, x) in t.at && OnPath(0, y) in t.at
    ensures t.at[OnPath(0, x)] == t.at[OnPath(0, y)] && Px(0, x) == Px(0, y) <==> x == y
  {
    assert Framed(m, t, OnPath(0, x)) && Framed(m, t, OnPath(0, y));
  }

  // ---------------------------------------------------------------- a new table page

  function Grown(m: Mem, f: nat, g: nat, i: nat): Mem
    requires f < |m.page| == |m.free| && g < |m.page| && i < |m.page[g]| && f != g
  {
    Mem(m.page[f := ZERO][g := m.page[g][i := Pte(true, 0, f)]], m.free[f := false])
  }

  lemma GrowOk(m: Mem, t: Tab, n: Node, i: nat, f: nat)
    requires TableOk(m, t) && n in t.at && n.level > 0 && i < 512 && Child(n, i) !in t.at
    requires f < |m.page| == |m.free| && m.free[f] && t.at[n] < |m.page| && |m.page[t.at[n]]| == 512 && f != t.at[n]
    ensures TableOk(Grown(m, f, t.at[n], i), Tab(t.at[Child(n, i) := f], t.node[f := Child(n, i)]))
  {
    var c := Child(n, i);
    var m', t' := Grown(m, f, t.at[n], i), Tab(t.at[c := f], t.node[f := c]);
    ChildParent(n, i);
    assert Framed(m, t, n);
    forall k: Node | k in t'.at
      ensures Framed(m', t', k) && Hung(t', k)
    {
      if k != c {
        assert Framed(m, t, k) && Hung(t, k);
      }
    }
    forall g: nat
      ensures Exact(t', g)
    {
      assert Exact(t, g);
      assert g in t.node ==> Framed(m, t, t.node[g]);
    }
    forall k: Node, j: nat
      ensures Pointed(m', t', k, j)
    {
      if k in t'.at && k.level > 0 && j < 512 {
        ChildParent(k, j);
        assert Framed(m', t', k);
        if k != c {
          assert Framed(m, t, k) && Pointed(m, t, k, j) && Framed(m, t, n);
        } else {
          assert Child(k, j) in t.at ==> Hung(t, Child(k, j));
        }
      }
    }
  }

  lemma GrowFlat(m: Mem, t: Tab, n: Node, i: nat, f: nat, x: nat)
    requires TableOk(m, t) && n in t.at && n.level > 0 && i < 512 && Child(n, i) !in t.at
    requires f < |m.page| == |m.free| && m.free[f] && t.at[n] < |m.page| && |m.page[t.at[n]]| == 512 && f != t.at[n]
    ensures Flat(Grown(m, f, t.at[n], i), Tab(t.at[Child(n, i) := f], t.node[f := Child(n, i)]), x) == Flat(m, t, x)
  {
    assert OnPath(0, x) in t.at ==> Framed(m, t, OnPath(0, x));
    assert Framed(m, t, n);
  }

  // ---------------------------------------------------------------- one entry

  function Written(m: Mem, f: nat, i: nat, e: Pte): Mem
    requires f < |m.page| && i < |m.page[f]|
  {
    m.(page := m.page[f := m.page[f][i := e]])
  }

  /** Writing a bottom entry changes the flat map at that page and nowhere else. */
  lemma WriteOk(m: Mem, t: Tab, vpn: nat, e: Pte, x: nat)
    requires TableOk(m, t) && OnPath(0, vpn) in t.at
    requires t.at[OnPath(0, vpn)] < |m.page| && |m.page[t.at[OnPath(0, vpn)]]| == 512
    ensures TableOk(Written(m, t.at[OnPath(0, vpn)], Px(0, vpn), e), t)
    ensures Flat(Written(m, t.at[OnPath(0, vpn)], Px(0, vpn), e), t, x) == if x == vpn then e else Flat(m, t, x)
  {
    var n := OnPath(0, vpn);
    var m' := Written(m, t.at[n], Px(0, vpn), e);
    forall g: nat
      ensures Exact(t, g)
    {
      assert Exact(t, g);
    }
    forall k: Node | k in t.at
      ensures Framed(m', t, k) && Hung(t, k)
    {
      assert Framed(m, t, k) && Hung(t, k);
    }
    forall k: Node, j: nat
      ensures Pointed(m', t, k, j)
    {
      assert k in t.at ==> Framed(m, t, k) && Framed(m', t, k);
      assert Framed(m, t, n) && Pointed(m, t, k, j);
    }
    if OnPath(0, x) in t.at {
      SlotUnique(m, t, x, vpn);
      assert Framed(m, t, OnPath(0, x));
    }
  }

  // ---------------------------------------------------------------- other memory

  /** Frames that are neither free nor table pages of `t` keep their contents and stay allocated. */
  ghost predicate Untouched(m: Mem, t: Tab, m': Mem) {
    && |m'.page| == |m.page| && |m'.free| == |m.free|
    && forall f: nat {:trigger Kept(m, m', f)} :: f < |m.page| == |m.free| && !m.free[f] && f !in t.node ==>
        Kept(m, m', f)
  }

  ghost predicate Kept(m: Mem, m': Mem, f: nat) {
    f < |m.page| == |m'.page| == |m'.free| && m'.page[f] == m.page[f] && !m'.free[f]
  }

  /** Two page tables with no table page in common. */
  ghost predicate Apart(t: Tab, u: Tab) {
    forall f: nat :: f in t.node ==> f !in u.node
  }

  /** Work on one page table leaves another alone. */
  lemma OtherTable(m: Mem, m': Mem, t: Tab, u: Tab, x: nat)
    requires TableOk(m, t) && Untouched(m, u, m') && Apart(t, u)
    ensures TableOk(m', t) && Flat(m', t, x) == Flat(m, t, x)
  {
    forall k: Node | k in t.at
      ensures Framed(m', t, k) && Hung(t, k)
    {
      assert Framed(m, t, k) && Hung(t, k);
      assert Kept(m, m', t.at[k]);
    }
    forall g: nat
      ensures Exact(t, g)
    {
      assert Exact(t, g);
    }
    forall k: Node, j: nat
      ensures Pointed(m', t, k, j)
    {
      assert k in t.at ==> Framed(m, t, k) && Framed(m', t, k) && Kept(m, m', t.at[k]);
      assert Pointed(m, t, k, j);
    }
    var n := OnPath(0, x);
    assert n in t.at ==> Framed(m, t, n) && Kept(m, m', t.at[n]);
  }

  /** Giving back a frame that is no table page. */
  lemma FreeOk(m: Mem, t: Tab, f: nat)
    requires TableOk(m, t) && f < |m.free| && f !in t.node
    ensures TableOk(m.(free := m.free[f := true]), t)
  {
    var m' := m.(free := m.free[f := true]);
    forall k: Node | k in t.at
      ensures Framed(m', t, k) && Hung(t, k)
    {
      assert Framed(m, t, k) && Hung(t, k);
    }
    forall g: nat
      ensures Exact(t, g)
    {
      assert Exact(t, g);
    }
    forall k: Node, j: nat
      ensures Pointed(m', t, k, j)
    {
      assert k in t.at ==> Framed(m, t, k);
      assert Pointed(m, t, k, j);
    }
  }

  // ---------------------------------------------------------------- subtrees

  /** Table page `k` is `n` or lies below it. */
  predicate Under(k: Node, n: Node) {
    k == n || (k.level + 1 == n.level && Parent(k) == n) || (k.level + 2 == n.level && Parent(Parent(k)) == n)
  }

  function Prune(t: Tab, n: Node): Tab {
    Tab(map k: Node | k in t.at && !Under(k, n) :: t.at[k],
        map f: nat | f in t.node && !Under(t.node[f], n) :: t.node[f])
  }

  /** The table pages under `n` are free now and no other frame has changed. */
  ghost predicate Released(m: Mem, m': Mem, t: Tab, n: Node) {
    && |m'.page| == |m.page| == |m'.free| == |m.free|
    && forall f: nat {:trigger m'.free[f]} :: f < |m.page| ==>
         if f in t.node && Under(t.node[f], n) then m'.free[f] else m'.free[f] == m.free[f] && m'.page[f] == m.page[f]
  }

  lemma UnderClosed(n: Node, i: nat, k: Node)
    requires 0 < n.level <= 2 && i < 512
    ensures Under(Parent(k), Child(n, i)) && k.level < Child(n, i).level ==> Under(k, Child(n, i))
    ensures Under(k, Child(n, i)) ==> k != n && Under(k, n)
    ensures Under(k, Child(n, i)) && k != Child(n, i) ==> Under(Parent(k), Child(n, i))
  {
    ChildParent(n, i);
  }

  /** With the subtree at a child released and the entry cleared, the rest is a page table again. */
  lemma PruneOk(m: Mem, t: Tab, n: Node, i: nat, m1: Mem, m': Mem)
    requires TableOk(m, t) && n in t.at && 0 < n.level <= 2 && i < 512 && Released(m, m1, t, Child(n, i))
    requires t.at[n] < |m1.page| && |m1.page[t.at[n]]| == 512
    requires m' == Written(m1, t.at[n], i, NULL)
    ensures TableOk(m', Prune(t, Child(n, i)))
  {
    var c := Child(n, i);
    var t' := Prune(t, c);
    assert Framed(m, t, n);
    UnderClosed(n, i, n);
    forall k: Node | k in t'.at
      ensures Framed(m', t', k) && Hung(t', k)
    {
      assert Framed(m, t, k) && Hung(t, k);
      UnderClosed(n, i, k);
      assert m1.free[t.at[k]] == m.free[t.at[k]];
      assert k.level < 2 && Under(Parent(k), c) ==> Under(k, c);
    }
    forall g: nat
      ensures Exact(t', g)
    {
      assert Exact(t, g);
    }
    forall k: Node, j: nat
      ensures Pointed(m', t', k, j)
    {
      if k in t'.at && k.level > 0 && j < 512 {
        assert Framed(m, t, k) && Framed(m', t', k) && Pointed(m, t, k, j);
        assert m1.free[t.at[k]] == m.free[t.at[k]];
        ChildParent(k, j);
        ChildParent(n, i);
        UnderClosed(n, i, Child(k, j));
      }
    }
  }

  /** Under `n`, without its children, only `n` itself is left. */
  lemma OnlyTop(m: Mem, t: Tab, n: Node, k: Node)
    requires TableOk(m, t) && n in t.at && n.level <= 2 && k in t.at && Under(k, n)
    requires forall j: nat :: j < 512 ==> n.level == 0 || Child(n, j) !in t.at
    ensures k == n
  {
    assert Hung(t, k);
    var c := if k.level + 1 == n.level then k else Parent(k);
    assert k != n ==> c == Child(n, c.prefix % 512);
  }
}
