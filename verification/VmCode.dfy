/** kernel/vm.c over page frames: walk, mappages, uvmunmap, uvmalloc, uvmdealloc, uvmcopy and freewalk. */
module VmCode {
  import opened PageTable

  /** Same frames, with page-sized contents, none of them given back. */
  ghost predicate Shaped(m: Mem) {
    |m.page| == |m.free| && forall f :: 0 <= f < |m.page| ==> |m.page[f]| == 512
  }

  /** `t'` has every table page of `t`, the others were free frames, and these are all the frames that were taken. */
  ghost predicate Grew(m: Mem, t: Tab, m': Mem, t': Tab) {
    && (forall n: Node :: n in t.at ==> n in t'.at && t'.at[n] == t.at[n])
    && (forall f: nat :: f in t.node ==> f in t'.node)
    && (forall f: nat :: f in t'.node ==> f in t.node || (f < |m.free| && m.free[f]))
    && Took(m, m', t', [])
  }

  /** The frames taken are the table pages of `t'` and the frames `fs`. */
  ghost predicate Took(m: Mem, m': Mem, t': Tab, fs: seq<nat>) {
    |m'.free| == |m.free| && forall f: nat :: f < |m.free| ==> m'.free[f] == (m.free[f] && f !in t'.node && f !in fs)
  }

  lemma NodesTaken(m: Mem, t: Tab)
    requires TableOk(m, t)
    ensures forall f: nat :: f in t.node ==> f < |m.free| && !m.free[f]
    ensures Grew(m, t, m, t)
  {
    forall f: nat | f in t.node
      ensures f < |m.free| && !m.free[f]
    {
      assert Exact(t, f) && Framed(m, t, t.node[f]);
    }
  }

  ghost predicate Same(m: Mem, t: Tab, m': Mem, t': Tab) {
    Grew(m, t, m', t') && forall x: nat :: Flat(m', t', x) == Flat(m, t, x)
  }

  /** The flat map after pages `first` to `first + k` were mapped to consecutive frames. */
  ghost predicate Mapped(m: Mem, t: Tab, m': Mem, t': Tab, first: nat, k: nat, frame: nat, perm: nat) {
    forall x: nat :: Flat(m', t', x) ==
        if first <= x < first + k then Pte(true, perm, frame + (x - first)) else Flat(m, t, x)
  }

  lemma MappedNext(m: Mem, t: Tab, m1: Mem, t1: Tab, m2: Mem, t2: Tab, m3: Mem, first: nat, k: nat, frame: nat,
                   perm: nat)
    requires Mapped(m, t, m1, t1, first, k, frame, perm) && Same(m1, t1, m2, t2)
    requires forall x: nat :: Flat(m3, t2, x) == if x == first + k then Pte(true, perm, frame + k) else Flat(m2, t2, x)
    ensures Mapped(m, t, m3, t2, first, k + 1, frame, perm)
  {
  }

  lemma GrewOn(m: Mem, t: Tab, m1: Mem, t1: Tab, m2: Mem, t2: Tab)
    requires Grew(m, t, m1, t1) && Grew(m1, t1, m2, t2)
    ensures Grew(m, t, m2, t2)
  {
  }

  class Vm {
    var m: Mem

    /** A free frame, when there is one. */
    method Kalloc() returns (ok: bool, f: nat)
      requires Shaped(m)
      modifies this
      ensures ok ==> f < |old(m).page| && old(m).free[f] && m == old(m).(free := old(m).free[f := false])
      ensures !ok ==> m == old(m) && forall g :: 0 <= g < |m.free| ==> !m.free[g]
    {
      f := 0;
      while f < |m.free|
        invariant 0 <= f <= |m.free| && m == old(m)
        invariant forall g :: 0 <= g < f ==> !m.free[g]
      {
        if m.free[f] {
          m := m.(free := m.free[f := false]);
          return true, f;
        }
        f := f + 1;
      }
      return false, 0;
    }

    /** One level of walk: the frame of the table page below. */
    method Descend(ghost t: Tab, ghost n: Node, g: nat, i: nat, alloc: bool) returns (ok: bool, f: nat, ghost t': Tab)
      requires Shaped(m) && TableOk(m, t) && n in t.at && n.level > 0 && t.at[n] == g && i < 512 && g < |m.page|
      modifies this
      ensures Shaped(m) && TableOk(m, t') && Same(old(m), t, m, t') && Untouched(old(m), t, m)
      ensures ok ==> Child(n, i) in t'.at && t'.at[Child(n, i)] == f && f < |m.page|
      ensures !ok ==> m == old(m) && t' == t && Child(n, i) !in t.at && (alloc ==> forall x :: 0 <= x < |m.free| ==>
        !m.free[x])
      ensures !alloc ==> m == old(m) && t' == t
    {
      ghost var c := Child(n, i);
      NodesTaken(m, t);
      assert Framed(m, t, n) && Pointed(m, t, n, i);
      assert c in t.at ==> Framed(m, t, c);
      var e := m.page[g][i];
      t' := t;
      if e.valid {
        return true, e.frame, t;
      }
      if !alloc {
        return false, 0, t;
      }
      ghost var m0 := m;
      ok, f := Kalloc();
      if ok {
        GrowOk(m0, t, n, i, f);
        forall x: nat
          ensures Flat(Grown(m0, f, g, i), Tab(t.at[c := f], t.node[f := c]), x) == Flat(m0, t, x)
        {
          GrowFlat(m0, t, n, i, f, x);
        }
        m := m.(page := m.page[f := ZERO]);
        m := m.(page := m.page[g := m.page[g][i := Pte(true, 0, f)]]);
        t' := Tab(t.at[c := f], t.node[f := c]);
        assert m == Grown(m0, f, g, i);
      }
    }

    /**
     * The entry of page `vpn`, as frame and index; with alloc, missing table pages are added and nothing else changes.
     */
    method Walk(root: nat, ghost t: Tab, vpn: nat, alloc: bool) returns (ok: bool, f: nat, ghost t': Tab)
      requires Shaped(m) && TableOk(m, t) && t.at[ROOT] == root && vpn < MAXVPN
      modifies this
      ensures Shaped(m) && TableOk(m, t') && Same(old(m), t, m, t') && Untouched(old(m), t, m)
      ensures ok ==> OnPath(0, vpn) in t'.at && t'.at[OnPath(0, vpn)] == f && f < |m.page|
      ensures !ok && alloc ==> forall x :: 0 <= x < |m.free| ==> !m.free[x]
      ensures !ok ==> OnPath(0, vpn) !in t.at
      ensures !alloc ==> m == old(m) && t' == t
    {
      f, t' := root, t;
      NodesTaken(m, t);
      assert Framed(m, t, ROOT);
      var level := 2;
      while level > 0
        invariant 0 <= level <= 2 && Shaped(m) && TableOk(m, t')
        invariant Same(old(m), t, m, t') && Untouched(old(m), t, m)
        invariant OnPath(level, vpn) in t'.at && t'.at[OnPath(level, vpn)] == f && f < |m.page|
        invariant !alloc ==> m == old(m) && t' == t
      {
        PathChild(level, vpn);
        ghost var m1, t1 := m, t';
        ok, f, t' := Descend(t', OnPath(level, vpn), f, Px(level, vpn), alloc);
        UntouchedOn(old(m), t, m1, t1, m);
        if !ok {
          NotOnPath(m, t', vpn, level - 1);
          return;
        }
        level := level - 1;
      }
      ok := true;
    }

    /** What page `vpn` maps to, if a user may use it; never allocates. */
    method Walkaddr(root: nat, ghost t: Tab, va: nat) returns (frame: nat, found: bool)
      requires Shaped(m) && TableOk(m, t) && t.at[ROOT] == root
      modifies this
      ensures m == old(m)
      ensures found == (va / 4096 < MAXVPN && Flat(m, t, va / 4096).valid && Flat(m, t, va / 4096).perm / 16 % 2 == 1)
      ensures found ==> frame == Flat(m, t, va / 4096).frame
    {
      frame, found := 0, false;
      if va >= 0x40_0000_0000 {
        return;
      }
      ghost var t';
      var ok, f;
      ok, f, t' := Walk(root, t, va / 4096, false);
      if !ok {
        return;
      }
      assert Framed(m, t, OnPath(0, va / 4096));
      var e := m.page[f][Px(0, va / 4096)];
      if !e.valid || e.perm / 16 % 2 == 0 {
        return;
      }
      return e.frame, true;
    }

    /** Stores the entry that walk found. */
    method SetEntry(ghost t: Tab, vpn: nat, f: nat, e: Pte)
      requires Shaped(m) && TableOk(m, t) && OnPath(0, vpn) in t.at && t.at[OnPath(0, vpn)] == f && f < |m.page|
      modifies this
      ensures Shaped(m) && TableOk(m, t) && m.free == old(m).free && Untouched(old(m), t, m)
      ensures forall x: nat :: Flat(m, t, x) == if x == vpn then e else Flat(old(m), t, x)
      ensures |m.page| == |old(m).page| && forall g: nat :: g < |m.page| && g !in t.node ==> m.page[g] == old(m).page[g]
    {
      ghost var m0 := m;
      m := m.(page := m.page[f := m.page[f][Px(0, vpn) := e]]);
      assert m == Written(m0, f, Px(0, vpn), e);
      forall x: nat
        ensures TableOk(m, t) && Flat(m, t, x) == if x == vpn then e else Flat(m0, t, x)
      {
        WriteOk(m0, t, vpn, e, x);
      }
      WriteOk(m0, t, vpn, e, vpn);
      assert Framed(m0, t, OnPath(0, vpn));
    }

    /** Maps `n` pages to consecutive frames; stops after `k` of them only when no frame is left for a table page. */
    method MapRange(root: nat, ghost t: Tab, first: nat, n: nat, frame: nat, perm: nat)
      returns (ok: bool, k: nat, ghost t': Tab)
      requires Shaped(m) && TableOk(m, t) && t.at[ROOT] == root && first + n <= MAXVPN
      requires forall x :: first <= x < first + n ==> !Flat(m, t, x).valid
      modifies this
      ensures Shaped(m) && TableOk(m, t') && t'.at[ROOT] == root && Grew(old(m), t, m, t') && Untouched(old(m), t, m)
      ensures Mapped(old(m), t, m, t', first, k, frame, perm)
      ensures if ok then k == n else k < n && forall x :: 0 <= x < |m.free| ==> !m.free[x]
    {
      k, t' := 0, t;
      NodesTaken(m, t);
      ghost var m0 := m;
      while k < n
        invariant 0 <= k <= n && Shaped(m) && TableOk(m, t') && t'.at[ROOT] == root
        invariant Grew(m0, t, m, t') && Untouched(m0, t, m)
        invariant Mapped(m0, t, m, t', first, k, frame, perm)
      {
        ghost var m1, t1 := m, t';
        var f;
        ok, f, t' := Walk(root, t', first + k, true);
        GrewOn(m0, t, m1, t1, m, t');
        UntouchedOn(m0, t, m1, t1, m);
        if !ok {
          return;
        }
        ghost var m2 := m;
        SetEntry(t', first + k, f, Pte(true, perm, frame + k));
        UntouchedOn(m0, t, m2, t', m);
        MappedNext(m0, t, m1, t1, m2, t', m, first, k, frame, perm);
        k := k + 1;
      }
      ok := true;
    }

    /** mappages: the pages that hold bytes `va` to `va + size`, which need not be aligned. */
    method Mappages(root: nat, ghost t: Tab, va: nat, size: nat, frame: nat, perm: nat)
      returns (r: int, k: nat, ghost t': Tab)
      requires Shaped(m) && TableOk(m, t) && t.at[ROOT] == root && 0 < size && va + size <= 0x40_0000_0000
      requires forall x :: va / 4096 <= x <= (va + size - 1) / 4096 ==> !Flat(m, t, x).valid
      modifies this
      ensures Shaped(m) && TableOk(m, t') && t'.at[ROOT] == root && Grew(old(m), t, m, t') && Untouched(old(m), t, m)
      ensures Mapped(old(m), t, m, t', va / 4096, k, frame, perm)
      ensures r == 0 ==> k == (va + size - 1) / 4096 - va / 4096 + 1
      ensures r != 0 ==> r == -1 && k <= (va + size - 1) / 4096 - va / 4096 && forall x :: 0 <= x < |m.free| ==>
        !m.free[x]
    {
      var first, last := va / 4096, (va + size - 1) / 4096;
      var ok;
      ok, k, t' := MapRange(root, t, first, last - first + 1, frame, perm);
      r := if ok then 0 else -1;
    }

    method Kfree(ghost t: Tab, f: nat)
      requires Shaped(m) && TableOk(m, t) && f < |m.free| && !m.free[f] && f !in t.node
      modifies this
      ensures m == old(m).(free := old(m).free[f := true]) && Shaped(m) && TableOk(m, t)
      ensures forall x: nat :: Flat(m, t, x) == Flat(old(m), t, x)
    {
      FreeOk(m, t, f);
      m := m.(free := m.free[f := true]);
    }

    /** Removes the mappings of `n` pages, which must exist, and gives their frames back when asked to. */
    method Uvmunmap(root: nat, ghost t: Tab, first: nat, n: nat, doFree: bool, ghost fs: seq<nat>)
      requires Shaped(m) && TableOk(m, t) && t.at[ROOT] == root && first + n <= MAXVPN
      requires |fs| == n && Backed(m, t, first, fs) && (doFree ==> Private(m, t, fs))
      modifies this
      ensures Shaped(m) && TableOk(m, t) && Unmapped(old(m), m, t, first, n)
      ensures if doFree then Freed(old(m), m, fs) else m.free == old(m).free
      ensures forall f: nat :: f < |m.page| && f !in t.node ==> m.page[f] == old(m).page[f]
    {
      ghost var m0 := m;
      var k := 0;
      while k < n
        invariant 0 <= k <= n && Shaped(m) && TableOk(m, t)
        invariant Unmapped(m0, m, t, first, k)
        invariant if doFree then Freed(m0, m, fs[..k]) else m.free == m0.free
        invariant |m.page| == |m0.page| && forall f: nat :: f < |m.page| && f !in t.node ==> m.page[f] == m0.page[f]
      {
        var ok, f;
        ghost var t';
        assert Flat(m, t, first + k) == Flat(m0, t, first + k) && Maps(m0, t, first, fs, k);
        ok, f, t' := Walk(root, t, first + k, false);
        assert Framed(m, t, OnPath(0, first + k));
        var e := m.page[f][Px(0, first + k)];
        if doFree {
          assert e.frame == fs[k];
          FreedNext(m0, m, t, fs, k);
          Kfree(t, e.frame);
        }
        ghost var m1 := m;
        SetEntry(t, first + k, f, NULL);
        k := k + 1;
      }
      assert fs[..n] == fs;
    }

    /** One new zeroed page; on failure its frame, if any, is given back. */
    method AddPage(root: nat, ghost t: Tab, vpn: nat, perm: nat, src: int) returns (ok: bool, f: nat, ghost t': Tab)
      requires Shaped(m) && TableOk(m, t) && t.at[ROOT] == root && vpn < MAXVPN && !Flat(m, t, vpn).valid
      requires -1 <= src < |m.page| && (src >= 0 ==> !m.free[src] && src !in t.node)
      modifies this
      ensures Shaped(m) && TableOk(m, t') && t'.at[ROOT] == root && Added(old(m), t, m, t', vpn, perm, src, ok, f)
    {
      ghost var m0 := m;
      t' := t;
      NodesTaken(m, t);
      ok, f := Kalloc();
      if !ok {
        return;
      }
      TakenOk(m0, m, t, f);
      m := m.(page := m.page[f := if src < 0 then ZERO else m.page[src]]);
      ghost var m1 := m;
      FrameOk(m0, m, t, f);
      var k;
      ok, k, t' := MapRange(root, t, vpn, 1, f, perm);
      assert Kept(m1, m, f);
      ghost var m2 := m;
      if !ok {
        Kfree(t', f);
      }
      forall g: nat | g < |m0.page| && !m0.free[g] && g !in t.node
        ensures Kept(m0, m, g)
      {
        assert Kept(m1, m2, g);
      }
    }

    /** Grows user memory with zeroed pages, or gives back what it took and leaves the mappings as they were. */
    method Uvmalloc(root: nat, ghost t: Tab, oldsz: nat, newsz: nat, xperm: nat)
      returns (r: nat, ghost fs: seq<nat>, ghost t': Tab)
      requires Shaped(m) && TableOk(m, t) && t.at[ROOT] == root && newsz <= 0x40_0000_0000
      requires forall x :: Pages(oldsz) <= x < Pages(newsz) ==> !Flat(m, t, x).valid
      modifies this
      ensures Shaped(m) && TableOk(m, t') && t'.at[ROOT] == root
      ensures newsz < oldsz ==> r == oldsz && m == old(m) && t' == t
      ensures newsz >= oldsz && r != newsz ==> r == 0 && SameMappings(old(m), t, m, t') && Took(old(m), m, t', [])
      ensures newsz >= oldsz && r == newsz ==> Extended(old(m), t, m, t', Pages(oldsz), fs, Zeroed(18 + xperm))
      ensures newsz >= oldsz && r == newsz ==> Pages(oldsz) + |fs| == Pages(newsz)
    {
      var first := Pages(oldsz);
      fs, t' := [], t;
      if newsz < oldsz {
        return oldsz, fs, t';
      }
      NodesTaken(m, t);
      ghost var m0, src := m, Zeroed(18 + xperm);
      var a := first;
      while a * 4096 < newsz
        invariant first <= a <= MAXVPN && |fs| == a - first && (first < a ==> (a - 1) * 4096 < newsz)
        invariant Shaped(m) && TableOk(m, t') && t'.at[ROOT] == root
        invariant Extended(m0, t, m, t', first, fs, src)
      {
        ghost var m1, t1 := m, t';
        var ok, f;
        ok, f, t' := AddPage(root, t', a, 18 + xperm, -1);
        if !ok {
          GrowthKept(m0, t, m1, t1, m, t', first, fs, src, a, 18 + xperm, -1, f);
          Undo(m0, t, root, t', fs, src, first, a);
          return 0, fs, t';
        }
        ExtendedNext(m0, t, m1, t1, m, t', first, fs, src, 18 + xperm, -1, f);
        fs := fs + [f];
        a := a + 1;
      }
      r := newsz;
    }

    /** Takes the pages added so far, up to `a`, out again. */
    method Undo(ghost m0: Mem, ghost t: Tab, root: nat, ghost t': Tab, ghost fs: seq<nat>, ghost src: Source,
                first: nat, a: nat)
      requires Shaped(m) && TableOk(m, t') && t'.at[ROOT] == root && a <= MAXVPN && a == first + |fs|
      requires Extended(m0, t, m, t', first, fs, src) && forall x: nat :: first <= x < a ==> PermAt(m0, src, x) > 0
      requires forall x: nat :: first <= x < a ==> !Flat(m0, t, x).valid
      modifies this
      ensures Shaped(m) && TableOk(m, t') && SameMappings(m0, t, m, t') && Took(m0, m, t', [])
      ensures |m.page| == |old(m).page|
      ensures forall f: nat :: f < |m.page| && f !in t'.node ==> m.page[f] == old(m).page[f]
    {
      ghost var m1 := m;
      ExtendedBacked(m0, t, m, t', first, fs, src);
      Uvmunmap(root, t', first, a - first, true, fs);
      ExtendedUndone(m0, t, m1, t', m, first, fs, src);
    }

    /**
     * Copies the first `n` pages of one page table into another one, on new frames with the same permissions,
     * or gives back what it took and leaves the other's mappings as they were. The first table is untouched either way.
     */
    method Uvmcopy(root: nat, ghost t: Tab, newRoot: nat, ghost u: Tab, n: nat)
      returns (r: int, ghost fs: seq<nat>, ghost u': Tab)
      requires Shaped(m) && TableOk(m, t) && TableOk(m, u) && Apart(t, u)
      requires t.at[ROOT] == root && u.at[ROOT] == newRoot && n <= MAXVPN
      requires forall x: nat :: x < n ==> Present(m, t, u, x)
      requires forall x: nat :: x < n ==> Flat(m, t, x).perm > 0 && !Flat(m, u, x).valid
      modifies this
      ensures Shaped(m) && TableOk(m, u') && u'.at[ROOT] == newRoot && TableOk(m, t)
      ensures forall x: nat :: Flat(m, t, x) == Flat(old(m), t, x)
      ensures r == 0 ==> |fs| == n && Extended(old(m), u, m, u', 0, fs, CopyOf(t))
      ensures r != 0 ==> r == -1 && SameMappings(old(m), u, m, u') && Took(old(m), m, u', [])
    {
      fs, u' := [], u;
      NodesTaken(m, t);
      NodesTaken(m, u);
      ghost var m0, src := m, CopyOf(t);
      var i := 0;
      while i < n
        invariant 0 <= i <= n && |fs| == i
        invariant Shaped(m) && TableOk(m, u') && u'.at[ROOT] == newRoot && Untouched(m0, u, m) && NewNodes(m0, u, u')
        invariant Extended(m0, u, m, u', 0, fs, src)
      {
        ghost var m1, u1 := m, u';
        var ok;
        ghost var f, e;
        ok, f, e, u' := CopyPage(m0, root, t, newRoot, u, u', i);
        if !ok {
          GrowthKept(m0, u, m1, u1, m, u', 0, fs, src, i, e.perm, e.frame, f);
          ghost var m2 := m;
          Undo(m0, u, newRoot, u', fs, src, 0, i);
          UndoneUntouched(m0, u, m2, u', m);
          OtherTables(m0, m, t, u);
          return -1, fs, u';
        }
        ExtendedNext(m0, u, m1, u1, m, u', 0, fs, src, e.perm, e.frame, f);
        fs := fs + [f];
        i := i + 1;
      }
      OtherTables(m0, m, t, u);
      r := 0;
    }

    /** One turn of uvmcopy. */
    method CopyPage(ghost m0: Mem, root: nat, ghost t: Tab, newRoot: nat, ghost u: Tab, ghost u1: Tab, x: nat)
      returns (ok: bool, ghost f: nat, ghost e: Pte, ghost u': Tab)
      requires Shaped(m0) && Shaped(m) && TableOk(m0, t) && TableOk(m, u1) && Apart(t, u) && Untouched(m0, u, m)
      requires NewNodes(m0, u, u1)
      requires t.at[ROOT] == root && u1.at[ROOT] == newRoot && x < MAXVPN && Present(m0, t, u, x)
      requires !Flat(m, u1, x).valid
      requires forall g: nat :: g < |m.free| && m.free[g] ==> g < |m0.free| && m0.free[g]
      modifies this
      ensures Shaped(m) && TableOk(m, u') && u'.at[ROOT] == newRoot && Untouched(m0, u, m) && NewNodes(m0, u, u')
      ensures e == Flat(m0, t, x) && Added(old(m), u1, m, u', x, e.perm, e.frame, ok, f)
      ensures ok ==> f < |m.page| && m.page[f] == PageAt(m0, CopyOf(t), x)
    {
      var pte, g;
      ghost var m1 := m;
      pte := Lookup(m0, root, t, u, x);
      e := pte;
      assert Kept(m0, m, pte.frame);
      ok, g, u' := AddPage(newRoot, u1, x, pte.perm, pte.frame);
      f := g;
      UntouchedOn(m0, u, m1, u1, m);
    }

    /** The entry of a mapped page of a table that work on another one left alone. */
    method Lookup(ghost m0: Mem, root: nat, ghost t: Tab, ghost u: Tab, x: nat) returns (e: Pte)
      requires Shaped(m) && TableOk(m0, t) && t.at[ROOT] == root && x < MAXVPN && Untouched(m0, u, m) && Apart(t, u)
      requires Flat(m0, t, x).valid
      modifies this
      ensures m == old(m) && e == Flat(m0, t, x)
    {
      OtherTables(m0, m, t, u);
      ghost var t';
      var ok, f;
      ok, f, t' := Walk(root, t, x, false);
      assert Framed(m, t, OnPath(0, x));
      e := m.page[f][Px(0, x)];
    }

    method Uvmdealloc(root: nat, ghost t: Tab, oldsz: nat, newsz: nat, ghost fs: seq<nat>) returns (r: nat)
      requires Shaped(m) && TableOk(m, t) && t.at[ROOT] == root && oldsz <= 0x40_0000_0000
      requires newsz < oldsz ==>
        |fs| == Pages(oldsz) - Pages(newsz) && Backed(m, t, Pages(newsz), fs) && Private(m, t, fs)
      modifies this
      ensures Shaped(m) && TableOk(m, t) && r == if newsz >= oldsz then oldsz else newsz
      ensures newsz >= oldsz ==> m == old(m)
      ensures newsz < oldsz ==> Unmapped(old(m), m, t, Pages(newsz), |fs|) && Freed(old(m), m, fs)
    {
      if newsz >= oldsz {
        return oldsz;
      }
      if Pages(newsz) < Pages(oldsz) {
        Uvmunmap(root, t, Pages(newsz), Pages(oldsz) - Pages(newsz), true, fs);
      }
      return newsz;
    }

    /** Frees the table pages from `n` down, each once; there must be no leaf mapping left. */
    method Freewalk(ghost t: Tab, ghost n: Node, f: nat)
      requires Shaped(m) && TableOk(m, t) && n in t.at && t.at[n] == f && NoLeaves(m, t)
      modifies this
      ensures Shaped(m) && Released(old(m), m, t, n)
      decreases n.level
    {
      ghost var m0, t1 := m, t;
      assert Framed(m, t, n);
      var i := 0;
      while i < 512
        invariant 0 <= i <= 512 && Shaped(m) && TableOk(m, t1) && NoLeaves(m, t1) && n in t1.at && t1.at[n] == f
        invariant Walked(m0, m, t, t1, n, f)
        invariant forall j: nat :: j < i && n.level > 0 ==> Child(n, j) !in t1.at
      {
        assert Framed(m, t1, n) && Pointed(m, t1, n, i);
        var pte := m.page[f][i];
        assert n.level == 0 ==> !pte.valid;
        if pte.valid {
          ghost var m1 := m;
          Freewalk(t1, Child(n, i), pte.frame);
          ghost var m2 := m;
          UnderClosed(n, i, n);
          assert m2.free[f] == m1.free[f];
          m := m.(page := m.page[f := m.page[f][i := NULL]]);
          PruneOk(m1, t1, n, i, m2, m);
          WalkedNext(m0, m1, m2, m, t, t1, n, f, i);
          t1 := Prune(t1, Child(n, i));
        }
        i := i + 1;
      }
      assert Framed(m, t1, n);
      WalkedAll(m0, m, t, t1, n, f);
      m := m.(free := m.free[f := true]);
    }
  }

  /** Bottom table pages hold no valid entry. */
  ghost predicate NoLeaves(m: Mem, t: Tab) {
    forall k: Node, j: nat :: k in t.at && k.level == 0 && j < 512 && t.at[k] < |m.page| && j < |m.page[t.at[k]]| ==>
        !m.page[t.at[k]][j].valid
  }

  /** Part of the subtree of `n` is gone: its frames are free, and other frames but `f` are as before. */
  ghost predicate Walked(m: Mem, m': Mem, t: Tab, t': Tab, n: Node, f: nat) {
    && |m'.page| == |m.page| == |m'.free| == |m.free|
    && (forall k: Node :: k in t'.at ==> k in t.at && t'.at[k] == t.at[k])
    && (forall g: nat :: g in t'.node ==> g in t.node && t'.node[g] == t.node[g])
    && (forall g: nat {:trigger m'.free[g]} :: g < |m.page| ==>
          if g in t.node && g !in t'.node then Under(t.node[g], n) && t.node[g] != n && m'.free[g]
          else m'.free[g] == m.free[g] && (g != f ==> m'.page[g] == m.page[g]))
  }

  lemma WalkedNext(m0: Mem, m1: Mem, m2: Mem, m3: Mem, t: Tab, t1: Tab, n: Node, f: nat, i: nat)
    requires Walked(m0, m1, t, t1, n, f) && NoLeaves(m1, t1) && TableOk(m1, t1) && n in t1.at && t1.at[n] == f
    requires 0 < n.level <= 2 && i < 512
    requires Released(m1, m2, t1, Child(n, i)) && f < |m2.page| && i < |m2.page[f]| && m3 == Written(m2, f, i, NULL)
    ensures Walked(m0, m3, t, Prune(t1, Child(n, i)), n, f) && NoLeaves(m3, Prune(t1, Child(n, i)))
    ensures n in Prune(t1, Child(n, i)).at && Child(n, i) !in Prune(t1, Child(n, i)).at
  {
    var c, t2 := Child(n, i), Prune(t1, Child(n, i));
    UnderClosed(n, i, n);
    forall g: nat | g < |m0.page|
      ensures if g in t.node && g !in t2.node then Under(t.node[g], n) && t.node[g] != n && m3.free[g]
              else m3.free[g] == m0.free[g] && (g != f ==> m3.page[g] == m0.page[g])
    {
      var was, now := m1.free[g], m2.free[g];
      assert g !in t1.node ==> now == was;
      if g in t1.node {
        UnderClosed(n, i, t1.node[g]);
      }
    }
    forall k: Node, j: nat | k in t2.at && k.level == 0 && j < 512 && t2.at[k] < |m3.page| && j < |m3.page[t2.at[k]]|
      ensures !m3.page[t2.at[k]][j].valid
    {
      assert Framed(m1, t1, k) && Framed(m1, t1, n);
      assert m2.free[t1.at[k]] == m1.free[t1.at[k]];
    }
  }

  lemma WalkedAll(m0: Mem, m: Mem, t: Tab, t1: Tab, n: Node, f: nat)
    requires Shaped(m) && TableOk(m0, t) && TableOk(m, t1) && Walked(m0, m, t, t1, n, f) && n in t1.at && t1.at[n] == f
    requires forall j: nat :: j < 512 && n.level > 0 ==> Child(n, j) !in t1.at
    ensures f < |m.free| && Released(m0, m.(free := m.free[f := true]), t, n)
  {
    assert Framed(m, t1, n) && Framed(m0, t, n);
    var m' := m.(free := m.free[f := true]);
    forall g: nat | g < |m0.page|
      ensures if g in t.node && Under(t.node[g], n) then m'.free[g]
        else m'.free[g] == m0.free[g] && m'.page[g] == m0.page[g]
    {
      var was := m.free[g];
      if g in t1.node && Under(t1.node[g], n) {
        assert Exact(t1, g);
        OnlyTop(m, t1, n, t1.node[g]);
      }
    }
  }

  /** PGROUNDUP in pages. */
  function Pages(size: nat): nat {
    (size + 4095) / 4096
  }

  /** Page `vpn` was mapped to the new frame `f`, zeroed or a copy of `src`; or only table pages were added. */
  ghost predicate Added(m: Mem, t: Tab, m': Mem, t': Tab, vpn: nat, perm: nat, src: int, ok: bool, f: nat) {
    && Untouched(m, t, m')
    && Took(m, m', t', if ok then [f] else [])
    && (forall g: nat :: g in t.node ==> g in t'.node)
    && (forall g: nat :: g in t'.node ==> g in t.node || (g < |m.free| && m.free[g]))
    && (forall x: nat :: Flat(m', t', x) == if ok && x == vpn then Pte(true, perm, f) else Flat(m, t, x))
    && (ok ==> f < |m.free| && m.free[f] && f !in t'.node && f < |m'.page| && -1 <= src < |m.page|)
    && (ok ==> m'.page[f] == if src < 0 then ZERO else m.page[src])
  }

  ghost predicate NewNodes(m: Mem, t: Tab, t': Tab) {
    forall f: nat :: f in t'.node ==> f in t.node || (f < |m.free| && m.free[f])
  }

  lemma OtherTables(m: Mem, m': Mem, t: Tab, u: Tab)
    requires TableOk(m, t) && Untouched(m, u, m') && Apart(t, u)
    ensures TableOk(m', t) && forall x: nat :: Flat(m', t, x) == Flat(m, t, x)
  {
    forall x: nat
      ensures TableOk(m', t) && Flat(m', t, x) == Flat(m, t, x)
    {
      OtherTable(m, m', t, u, x);
    }
    OtherTable(m, m', t, u, 0);
  }

  lemma UndoneUntouched(m0: Mem, u: Tab, m1: Mem, u1: Tab, m2: Mem)
    requires Untouched(m0, u, m1) && NewNodes(m0, u, u1) && Took(m0, m2, u1, []) && |m0.page| == |m0.free|
    requires |m2.page| == |m1.page| && forall f: nat :: f < |m2.page| && f !in u1.node ==> m2.page[f] == m1.page[f]
    ensures Untouched(m0, u, m2)
  {
    forall f: nat | f < |m0.page| && !m0.free[f] && f !in u.node
      ensures Kept(m0, m2, f)
    {
      assert Kept(m0, m1, f);
    }
  }

  /** Page `x` can be copied from `t` to `u`. */
  ghost predicate Present(m: Mem, t: Tab, u: Tab, x: nat) {
    var e := Flat(m, t, x);
    e.valid && e.frame < |m.page| == |m.free| && !m.free[e.frame] && e.frame !in u.node
  }

  /** The same valid mappings. */
  ghost predicate SameMappings(m: Mem, t: Tab, m': Mem, t': Tab) {
    forall x: nat :: Flat(m', t', x) == Flat(m, t, x) || (!Flat(m, t, x).valid && !Flat(m', t', x).valid)
  }

  /** What new pages hold: zeroes, or copies of the pages of another page table. */
  datatype Source = Zeroed(perm: nat) | CopyOf(tab: Tab)

  ghost function PermAt(m: Mem, src: Source, x: nat): nat {
    if src.Zeroed? then src.perm else Flat(m, src.tab, x).perm
  }

  ghost function PageAt(m: Mem, src: Source, x: nat): seq<Pte> {
    if src.Zeroed? || Flat(m, src.tab, x).frame >= |m.page| then ZERO else m.page[Flat(m, src.tab, x).frame]
  }

  /** Pages from `first` on were added, on frames `fs` that were free, and all else is as before. */
  ghost predicate Extended(m: Mem, t: Tab, m': Mem, t': Tab, first: nat, fs: seq<nat>, src: Source) {
    && (forall x: nat :: Flat(m', t', x) ==
          if first <= x < first + |fs| then Pte(true, PermAt(m, src, x), fs[x - first]) else Flat(m, t, x))
    && Private(m', t', fs)
    && |m'.page| == |m.page| == |m.free|
    && (forall k :: 0 <= k < |fs| ==> fs[k] < |m.page| && m.free[fs[k]] && m'.page[fs[k]] == PageAt(m, src, first + k))
    && Took(m, m', t', fs)
  }

  lemma ExtendedNext(m: Mem, t: Tab, m1: Mem, t1: Tab, m2: Mem, t2: Tab, first: nat, fs: seq<nat>, src: Source,
                     perm: nat, from: int, f: nat)
    requires Extended(m, t, m1, t1, first, fs, src) && Added(m1, t1, m2, t2, first + |fs|, perm, from, true, f)
    requires perm == PermAt(m, src, first + |fs|) && f < |m2.page| && m2.page[f] == PageAt(m, src, first + |fs|)
    ensures Extended(m, t, m2, t2, first, fs + [f], src)
  {
    forall k | 0 <= k < |fs|
      ensures m2.page[fs[k]] == PageAt(m, src, first + k) && !m2.free[fs[k]] && fs[k] !in t2.node
    {
      assert Kept(m1, m2, fs[k]);
    }
  }

  /** Taking the new pages out again restores the mappings and returns their frames. */
  lemma ExtendedUndone(m: Mem, t: Tab, m1: Mem, t1: Tab, m2: Mem, first: nat, fs: seq<nat>, src: Source)
    requires Extended(m, t, m1, t1, first, fs, src) && Unmapped(m1, m2, t1, first, |fs|) && Freed(m1, m2, fs)
    requires forall x: nat :: first <= x < first + |fs| ==> !Flat(m, t, x).valid
    ensures SameMappings(m, t, m2, t1) && Took(m, m2, t1, [])
  {
  }

  /** A failed step may have added table pages but keeps the pages added so far. */
  lemma GrowthKept(m: Mem, t: Tab, m1: Mem, t1: Tab, m2: Mem, t2: Tab, first: nat, fs: seq<nat>, src: Source, vpn: nat,
                   perm: nat, from: int, f: nat)
    requires Extended(m, t, m1, t1, first, fs, src) && Added(m1, t1, m2, t2, vpn, perm, from, false, f)
    ensures Extended(m, t, m2, t2, first, fs, src)
  {
    forall k | 0 <= k < |fs|
      ensures m2.page[fs[k]] == PageAt(m, src, first + k) && !m2.free[fs[k]] && fs[k] !in t2.node
    {
      assert Kept(m1, m2, fs[k]);
    }
  }

  lemma ExtendedBacked(m: Mem, t: Tab, m1: Mem, t1: Tab, first: nat, fs: seq<nat>, src: Source)
    requires Extended(m, t, m1, t1, first, fs, src)
    requires forall x: nat :: first <= x < first + |fs| ==> PermAt(m, src, x) > 0
    ensures Backed(m1, t1, first, fs) && Private(m1, t1, fs)
  {
    forall k: nat
      ensures Maps(m1, t1, first, fs, k)
    {
      assert k < |fs| ==> Flat(m1, t1, first + k) == Pte(true, PermAt(m, src, first + k), fs[first + k - first]);
    }
  }

  /** Page `first + k` is mapped to frame `fs[k]`. */
  ghost predicate Maps(m: Mem, t: Tab, first: nat, fs: seq<nat>, k: nat) {
    k < |fs| ==> Flat(m, t, first + k).valid && Flat(m, t, first + k).perm != 0 && Flat(m, t, first + k).frame == fs[k]
  }

  ghost predicate Backed(m: Mem, t: Tab, first: nat, fs: seq<nat>) {
    forall k: nat {:trigger Maps(m, t, first, fs, k)} :: Maps(m, t, first, fs, k)
  }

  /** The frames are allocated, no table pages of `t`, and all different. */
  ghost predicate Private(m: Mem, t: Tab, fs: seq<nat>) {
    && (forall k :: 0 <= k < |fs| ==> fs[k] < |m.free| && !m.free[fs[k]] && fs[k] !in t.node)
    && (forall j, k :: 0 <= j < k < |fs| ==> fs[j] != fs[k])
  }

  ghost predicate Freed(m: Mem, m': Mem, fs: seq<nat>) {
    |m'.free| == |m.free| && forall f: nat :: f < |m.free| ==> m'.free[f] == (m.free[f] || f in fs)
  }

  ghost predicate Unmapped(m: Mem, m': Mem, t: Tab, first: nat, k: nat) {
    forall x: nat :: Flat(m', t, x) == if first <= x < first + k then NULL else Flat(m, t, x)
  }

  lemma FreedNext(m0: Mem, m: Mem, t: Tab, fs: seq<nat>, k: nat)
    requires k < |fs| && Freed(m0, m, fs[..k]) && Private(m0, t, fs)
    ensures fs[k] < |m.free| && !m.free[fs[k]] && fs[k] !in t.node
    ensures Freed(m0, m.(free := m.free[fs[k] := true]), fs[..k + 1])
  {
    assert fs[..k + 1] == fs[..k] + [fs[k]];
  }

  lemma TakenOk(m0: Mem, m: Mem, t: Tab, f: nat)
    requires Shaped(m0) && TableOk(m0, t) && f < |m0.free| && m0.free[f] && m == m0.(free := m0.free[f := false])
    ensures f !in t.node
  {
    assert Exact(t, f);
    assert f in t.node ==> Framed(m0, t, t.node[f]);
  }

  /** Taking a frame for data and filling it leaves the page table alone. */
  lemma FrameOk(m0: Mem, m: Mem, t: Tab, f: nat)
    requires Shaped(m0) && TableOk(m0, t) && f < |m0.free| && m0.free[f] && f !in t.node && |m.page| == |m0.page|
    requires m == Mem(m0.page[f := m.page[f]], m0.free[f := false])
    ensures TableOk(m, t) && forall x: nat :: Flat(m, t, x) == Flat(m0, t, x)
  {
    forall k: Node | k in t.at
      ensures Framed(m, t, k) && Hung(t, k)
    {
      assert Framed(m0, t, k) && Hung(t, k);
    }
    forall g: nat
      ensures Exact(t, g)
    {
      assert Exact(t, g);
    }
    forall k: Node, j: nat
      ensures Pointed(m, t, k, j)
    {
      assert k in t.at ==> Framed(m0, t, k) && Framed(m, t, k);
      assert Pointed(m0, t, k, j);
    }
    forall x: nat
      ensures Flat(m, t, x) == Flat(m0, t, x)
    {
      assert OnPath(0, x) in t.at ==> Framed(m0, t, OnPath(0, x));
    }
  }

  lemma UntouchedOn(m0: Mem, t0: Tab, m1: Mem, t1: Tab, m2: Mem)
    requires Untouched(m0, t0, m1) && Untouched(m1, t1, m2) && |m0.page| == |m0.free|
    requires forall f: nat :: f in t1.node ==> f in t0.node || (f < |m0.free| && m0.free[f])
    ensures Untouched(m0, t0, m2)
  {
    forall f: nat | f < |m0.page| == |m0.free| && !m0.free[f] && f !in t0.node
      ensures Kept(m0, m2, f)
    {
      assert Kept(m0, m1, f);
      assert Kept(m1, m2, f);
    }
  }

  /** Below a missing table page there is none. */
  lemma NotOnPath(m: Mem, t: Tab, vpn: nat, level: nat)
    requires TableOk(m, t) && level < 2 && OnPath(level, vpn) !in t.at && vpn < MAXVPN
    ensures OnPath(0, vpn) !in t.at
  {
    if OnPath(0, vpn) in t.at {
      assert Hung(t, OnPath(0, vpn));
      PathChild(1, vpn);
      ChildParent(OnPath(1, vpn), Px(1, vpn));
    }
  }
}
