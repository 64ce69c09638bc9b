/** The loops of sys_mmap, fork, pagefault, sys_munmap and proc_freepagetable over mmap_list and page-table entries. */
module CowCode {
  import opened Cow
  import opened CowRuns
  import opened MemLayout

  // ----- flag words

  const PROT_READ := 1
  const PROT_WRITE := 2
  const MAP_PRIVATE := 0x10
  const MAP_SHARED := 0x20
  const MAP_HUGEPAGE := 0x100

  /** The third word of a slot of mmap_list. */
  function FlagWord(a: Attr): nat {
    (if a.writable then PROT_WRITE else PROT_READ) + (if a.shared then MAP_SHARED else MAP_PRIVATE)
  }

  function CreatePteFlag(flags: nat, notMapped: bool, cow: bool): int {
    var prot := if flags % 16 == PROT_READ then 3 else 7;
    var user := prot + 16 + if flags / 16 % 16 == 1 then 256 else 0;
    var waiting := if notMapped then user - 1 + 512 else user;
    if cow then waiting + 512 - (if flags % 16 == PROT_WRITE then 4 else 0) else waiting
  }

  /** Bit `n` of a word, given 2 to the power `n`. */
  predicate Bit(w: nat, power: nat)
    requires power > 0
  {
    w / power % 2 == 1
  }

  /** The sums of create_pte_flag are the bits meant: no carry, PTE_U always set, PTE_X never. */
  lemma FlagBits(a: Attr, notMapped: bool, cow: bool, frame: nat)
    requires !(notMapped && cow)
    ensures var w := CreatePteFlag(FlagWord(a), notMapped, cow);
      && 0 <= w < 1024 && Bit(w, 16) && !Bit(w, 8)
      && MakePte(frame, a, notMapped, cow) == Pte(frame, Bit(w, 1), Bit(w, 2), Bit(w, 4), Bit(w, 256), Bit(w, 512))
      && (w / 256 % 4 == 3 && Bit(w, 2) && Bit(w, 1) <==> IsCow(MakePte(frame, a, notMapped, cow)))
      && (w / 256 % 4 == 2 && Bit(w, 2) && !Bit(w, 1) <==> IsPlaceholder(MakePte(frame, a, notMapped, cow)))
  {
    var w := CreatePteFlag(FlagWord(a), notMapped, cow);
    assert FlagWord(a) / 16 % 16 == 1 <==> !a.shared;
    assert FlagWord(a) % 16 == PROT_WRITE <==> a.writable;
  }

  // ----- mmap_list

  /** A slot of mmap_list in pages; free when `start` is 0. */
  datatype Slot = Slot(start: nat, len: nat, attr: Attr)

  const FREE := Slot(0, 0, Attr(false, false))

  predicate InSlot(sl: Slot, page: nat) {
    sl.start != 0 && sl.start <= page < sl.start + sl.len
  }

  predicate HasPage(list: seq<Slot>, page: nat) {
    |list| == 4 && (InSlot(list[0], page) || InSlot(list[1], page) || InSlot(list[2], page) || InSlot(list[3], page))
  }

  predicate FreeSlot(list: seq<Slot>) {
    |list| == 4 && (list[0].start == 0 || list[1].start == 0 || list[2].start == 0 || list[3].start == 0)
  }

  /** The slots of a process cover exactly its mapped pages, with their attributes, and do not overlap. */
  ghost predicate Lists(lists: map<nat, seq<Slot>>, maps: map<Key, Attr>) {
    && (forall p: nat :: p in lists ==> |lists[p]| == 4)
    && (forall p: nat, i: nat {:trigger lists[p][i]} :: p in lists && i < |lists[p]| ==>
          (lists[p][i].start != 0 <==> lists[p][i].len > 0))
    && (forall k: Key {:trigger k in maps} :: k in maps <==> k.pid in lists && HasPage(lists[k.pid], k.page))
    && (forall k: Key, i: nat {:trigger InSlot(lists[k.pid][i], k.page)} ::
          k.pid in lists && i < |lists[k.pid]| == 4 && InSlot(lists[k.pid][i], k.page) ==>
              k in maps && maps[k] == lists[k.pid][i].attr)
    && (forall p: nat, i: nat, j: nat, x: nat {:trigger InSlot(lists[p][i], x), InSlot(lists[p][j], x)} ::
          p in lists && i < j < |lists[p]| ==> !(InSlot(lists[p][i], x) && InSlot(lists[p][j], x)))
  }

  // ----- page tables

  function Entry(pt: map<Key, Pte>, k: Key): Pte {
    if k in pt then pt[k] else NONE
  }

  /** The page tables hold these entries and no others. */
  ghost predicate Shows(pt: map<Key, Pte>, ptes: map<Key, Pte>) {
    && (forall k :: k in ptes ==> Entry(pt, k) == ptes[k])
    && (forall k :: k !in ptes ==> Entry(pt, k) == NONE)
  }

  /** The child has the parent's pages, of the same kind and with the same bytes, and every other page is as before. */
  ghost predicate Inherits(m0: Mem, m: Mem, p: nat, np: nat) {
    && (forall k: Key {:trigger Kept(m0, m, k)} :: Kept(m0, m, k))
    && (forall k: Key {:trigger Copied(m0, m, p, np, k)} :: Copied(m0, m, p, np, k))
  }

  ghost predicate Kept(m0: Mem, m: Mem, k: Key) {
    k in m0.kinds ==> k in m.kinds && m.kinds[k] == m0.kinds[k] && Contents(m, k) == Contents(m0, k)
  }

  ghost predicate Copied(m0: Mem, m: Mem, p: nat, np: nat, k: Key) {
    k in m.kinds && k !in m0.kinds ==>
      && k.pid == np && Key(p, k.page) in m0.kinds
      && m.kinds[k] == m0.kinds[Key(p, k.page)] && Contents(m, k) == Contents(m0, Key(p, k.page))
  }

  lemma InheritsNext(m0: Mem, m: Mem, p: nat, np: nat, page: nat)
    requires Inherits(m0, m, p, np) && Key(p, page) in m0.kinds && Key(np, page) !in m.kinds && p != np
    ensures Key(p, page) in m.kinds && Inherits(m0, ForkMem(m, Key(p, page), Key(np, page)), p, np)
  {
    assert Kept(m0, m, Key(p, page));
    ForkContents(m, Key(p, page), Key(np, page));
    var m1 := ForkMem(m, Key(p, page), Key(np, page));
    forall k: Key
      ensures Kept(m0, m1, k) && Copied(m0, m1, p, np, k)
    {
      assert Kept(m0, m, k) && Copied(m0, m, p, np, k);
    }
  }

  /** The mapped pages with their attributes, all entries, and the promised memory. */
  datatype Space = Space(maps: map<Key, Attr>, ptes: map<Key, Pte>, mem: Mem)

  /** The page tables show what the mapped pages need, and all together is the promised memory. */
  ghost predicate Sound(pt: map<Key, Pte>, frames: map<nat, Data>, refs: map<nat, nat>, v: Space) {
    Shows(pt, v.ptes) && Simulates(State(v.maps, v.ptes, frames, refs), v.mem)
  }

  /** If the page waits for its first touch, the pages waiting at its address may share. */
  ghost predicate SafeFault(v: Space, k: Key) {
    k in v.maps && k in v.ptes && IsPlaceholder(v.ptes[k]) ==> Harmless(v.maps, v.ptes, v.mem.kinds, k)
  }

  class Memory {
    var lists: map<nat, seq<Slot>>
    var pt: map<Key, Pte>
    var frames: map<nat, Data>
    var refs: map<nat, nat>

    ghost predicate Valid(v: Space)
      reads this
    {
      Sound(pt, frames, refs, v) && Lists(lists, v.maps)
    }

    /** No process has mapped anything. */
    constructor ()
      ensures Valid(Space(map[], map[], NOTHING)) && lists == map[]
    {
      lists, pt, frames, refs := map[], map[], map[], map[];
    }

    /** One turn of fork's loops, for the page after `x` pages of a region. */
    method ForkOne(ghost v: Space, ghost v0: Space, p: nat, np: nat, start: nat, n: nat, x: nat, a: Attr)
      returns (ghost v': Space)
      requires Sound(pt, frames, refs, v) && ForkSoFar(v0, v, p, np, start, n, x, a) && x < n
      modifies this`pt, this`refs
      ensures Sound(pt, frames, refs, v') && ForkSoFar(v0, v', p, np, start, n, x + 1, a)
    {
      ghost var pt0, refs0 := pt, refs;
      ForkReady(pt, frames, refs, v, v0, p, np, start, n, x, a);
      ForkEntries(Key(p, start + x), Key(np, start + x), a);
      v' := ForkDone(pt0, frames, refs0, v, pt, refs, v0, p, np, start, n, x, a);
    }

    /** The entries and the count that fork changes for one page. */
    method ForkEntries(k: Key, c: Key, a: Attr)
      requires k != c && Entry(pt, c) == NONE && (Entry(pt, k).v ==> Entry(pt, k).frame in refs)
      modifies this`pt, this`refs
      ensures ForkedEntries(old(pt), pt, old(refs), refs, a, k, c)
    {
      var e := Entry(pt, k);
      if a.shared {
        if !e.v {
          pt := pt[k := MakePte(0, a, true, false)];
          pt := pt[c := pt[k]];
        } else {
          pt := pt[c := e];
          refs := refs[e.frame := refs[e.frame] + 1];
        }
      } else if e.v {
        if !a.writable {
          pt := pt[c := e];
        } else {
          pt := pt[k := MakePte(e.frame, a, false, true)];
          pt := pt[c := pt[k]];
        }
        refs := refs[e.frame := refs[e.frame] + 1];
      }
    }

    /** One turn of the release loops. */
    method UnmapOne(ghost v: Space, k: Key) returns (ghost v': Space)
      requires Sound(pt, frames, refs, v) && k in v.maps && k in v.ptes
      modifies this`pt, this`frames, this`refs
      ensures Sound(pt, frames, refs, v') && Dropped(v, v', k)
    {
      ghost var pt0, frames0, refs0 := pt, frames, refs;
      UnmapReady(pt, frames, refs, v, k);
      UnmapEntry(k);
      v' := UnmapDone(pt0, frames0, refs0, v, pt, frames, refs, k);
    }

    method UnmapEntry(k: Key)
      requires Entry(pt, k).v ==> Entry(pt, k).frame in refs
      modifies this`pt, this`frames, this`refs
      ensures UnmappedEntry(old(pt), pt, old(frames), frames, old(refs), refs, k)
    {
      var e := Entry(pt, k);
      if e.v {
        if refs[e.frame] <= 1 {
          frames, refs := frames - {e.frame}, refs - {e.frame};
        } else {
          refs := refs[e.frame := refs[e.frame] - 1];
        }
        pt := pt[k := NONE];
      }
    }

    /** The release loop of sys_munmap and proc_freepagetable over one region. */
    method Release(ghost v: Space, pid: nat, start: nat, n: nat) returns (ghost v': Space)
      requires Sound(pt, frames, refs, v) && Mapped(v.maps, pid, start, n)
      modifies this`pt, this`frames, this`refs
      ensures Sound(pt, frames, refs, v') && Removed(v, v', pid, start, n)
    {
      v' := v;
      var a := 0;
      while a < n
        invariant 0 <= a <= n && Sound(pt, frames, refs, v') && Removed(v, v', pid, start, a)
      {
        assert Key(pid, start + a) in v.maps;
        ghost var v1 := v';
        v' := UnmapOne(v', Key(pid, start + a));
        RemovedNext(v, v1, v', pid, start, a);
        a := a + 1;
      }
    }

    /** Fork's loop over the pages of one region. */
    method ForkRegion(ghost v: Space, ghost v0: Space, p: nat, np: nat, start: nat, n: nat, a: Attr)
      returns (ghost v': Space)
      requires Sound(pt, frames, refs, v) && ForkSoFar(v0, v, p, np, start, n, 0, a)
      modifies this`pt, this`refs
      ensures Sound(pt, frames, refs, v') && ForkSoFar(v0, v', p, np, start, n, n, a)
    {
      v' := v;
      var x := 0;
      while x < n
        invariant 0 <= x <= n && Sound(pt, frames, refs, v') && ForkSoFar(v0, v', p, np, start, n, x, a)
      {
        v' := ForkOne(v', v0, p, np, start, n, x, a);
        x := x + 1;
      }
    }

    /** The slot that covers a page, as the loop of pagefault finds it; 4 when there is none. */
    method FindSlot(ghost v: Space, pid: nat, page: nat) returns (i: nat)
      requires Lists(lists, v.maps) && pid in lists
      ensures i <= 4 && (i == 4 <==> Key(pid, page) !in v.maps)
      ensures i < 4 ==> InSlot(lists[pid][i], page) && v.maps[Key(pid, page)] == lists[pid][i].attr
    {
      var list := lists[pid];
      i := 0;
      while i < 4
        invariant 0 <= i <= 4 && forall j: nat :: j < i ==> !InSlot(list[j], page)
      {
        if InSlot(list[i], page) {
          assert InSlot(lists[Key(pid, page).pid][i], Key(pid, page).page);
          return;
        }
        i := i + 1;
      }
      assert !HasPage(list, page);
    }

    /** fork for the mmap regions: the child sees what the parent sees, private pages copied, shared ones common. */
    method Fork(ghost v: Space, p: nat, np: nat) returns (ghost v': Space)
      requires Valid(v) && p != np && p in lists && forall x: nat :: Key(np, x) !in v.ptes
      modifies this`lists, this`pt, this`refs
      ensures Valid(v') && lists == old(lists)[np := old(lists)[p]]
      ensures Inherits(v.mem, v'.mem, p, np)
      ensures forall x: nat :: Key(p, x) in v.mem.kinds ==> Key(np, x) in v'.mem.kinds
    {
      v' := v;
      CleanNew(v, np);
      ForkNone(v, lists[p], p, np);
      var i := 0;
      while i < 4
        invariant 0 <= i <= 4 && lists == old(lists) && Sound(pt, frames, refs, v')
        invariant ForkedSlots(v, v', lists[p], p, np, i)
      {
        v' := ForkSlot(v, v', p, np, i);
        i := i + 1;
      }
      ListsForked(lists, v.maps, v'.maps, p, np);
      ForkCovers(v, v', lists, p, np);
      lists := lists[np := lists[p]];
    }

    /** Fork's loop over the slots of mmap_list, one turn. */
    method ForkSlot(ghost v: Space, ghost v1: Space, p: nat, np: nat, i: nat) returns (ghost v': Space)
      requires Lists(lists, v.maps) && p in lists && p != np && i < 4 && (forall x: nat :: Key(np, x) !in v.maps)
      requires Sound(pt, frames, refs, v1) && ForkedSlots(v, v1, lists[p], p, np, i)
      modifies this`pt, this`refs
      ensures Sound(pt, frames, refs, v') && ForkedSlots(v, v', lists[p], p, np, i + 1)
    {
      var sl := lists[p][i];
      v' := v1;
      if sl.start != 0 {
        ForkStart(v, v1, lists, p, np, i);
        v' := ForkRegion(v1, v1, p, np, sl.start, sl.len, sl.attr);
        SharedNext(v.maps, v1.maps, v'.maps, lists[p], np, i);
        InheritsOn(v.mem, v1.mem, v'.mem, p, np);
      } else {
        SharedFree(v.maps, v1.maps, lists[p], np, i);
      }
    }

    /** Releases the region of one slot and clears the slot. */
    method ReleaseSlot(ghost v: Space, pid: nat, i: nat) returns (ghost v': Space)
      requires Sound(pt, frames, refs, v) && Lists(lists, v.maps) && pid in lists && i < 4 && lists[pid][i].start != 0
      modifies this
      ensures Sound(pt, frames, refs, v') && Lists(lists, v'.maps)
      ensures lists == old(lists)[pid := old(lists)[pid][i := FREE]]
      ensures Removed(v, v', pid, old(lists)[pid][i].start, old(lists)[pid][i].len)
    {
      var sl := lists[pid][i];
      SlotMapped(lists, v.maps, pid, i);
      v' := Release(v, pid, sl.start, sl.len);
      ListsCleared(lists, v.maps, v'.maps, pid, i);
      lists := lists[pid := lists[pid][i := FREE]];
    }

    /**
     * sys_munmap of base pages: -1 without a region that starts there; otherwise that region is gone and nothing else.
     * Entries of pages that wait for their first touch stay in the page table.
     */
    method Munmap(ghost v: Space, pid: nat, addr: nat) returns (r: int, ghost v': Space, ghost n: nat)
      requires Valid(v) && pid in lists
      modifies this
      ensures Valid(v') && (r == 0 || r == -1)
      ensures r == -1 ==> v' == v && lists == old(lists) && pt == old(pt) && frames == old(frames) && refs == old(refs)
      ensures addr % 4096 != 0 || addr < PHYSTOP || LAST < addr ==> r == -1
      ensures addr % 4096 == 0 && PHYSTOP <= addr <= LAST ==>
        (r == -1 <==> forall i: nat :: i < 4 ==> old(lists)[pid][i].start != addr / 4096)
      ensures r == 0 ==>
        (exists i: nat :: i < 4 && old(lists)[pid][i].start == addr / 4096 && old(lists)[pid][i].len == n)
      ensures r == 0 ==> Removed(v, v', pid, addr / 4096, n)
    {
      v', n := v, 0;
      if addr % 4096 != 0 || addr < PHYSTOP || LAST < addr {
        return -1, v, 0;
      }
      var i := 0;
      while i < 4
        invariant 0 <= i <= 4 && unchanged(this) && v' == v
        invariant forall j: nat :: j < i ==> lists[pid][j].start != addr / 4096
      {
        if lists[pid][i].start == addr / 4096 {
          n := lists[pid][i].len;
          v' := ReleaseSlot(v, pid, i);
          return 0, v', n;
        }
        i := i + 1;
      }
      return -1, v, 0;
    }

    /**
     * proc_freepagetable: every region of the process goes, with what munmap left behind, the memory of all others
     * stays, and no page is lost or kept.
     */
    method Exit(ghost v: Space, pid: nat) returns (ghost v': Space)
      requires Valid(v) && pid in lists
      modifies this
      ensures Valid(v') && pid in lists && Survives(v, v', pid)
      ensures forall x: nat :: Key(pid, x) !in v'.maps && Key(pid, x) !in v'.ptes
    {
      v' := v;
      var i := 0;
      while i < 4
        invariant 0 <= i <= 4 && pid in lists && |lists[pid]| == 4
        invariant Valid(v') && Survives(v, v', pid)
        invariant forall j: nat :: j < i ==> lists[pid][j].start == 0
      {
        if lists[pid][i].start != 0 {
          ghost var v1 := v';
          ghost var sl := lists[pid][i];
          v' := ReleaseSlot(v', pid, i);
          SurvivesOn(v, v1, v', pid, sl.start, sl.len);
        }
        i := i + 1;
      }
      NoneCovered(lists, v'.maps, pid);
      v' := TableFreed(pt, frames, refs, v', pid);
      pt := map k: Key | k in pt && k.pid != pid :: pt[k];
    }

    /**
     * sys_mmap of base pages. It refuses bad arguments and any overlap with a region of the process; otherwise it
     * returns the address, and the new pages read as zero, if a slot of mmap_list was free. Without one nothing is
     * mapped.
     */
    method Mmap(ghost v: Space, pid: nat, addr: nat, length: int, prot: int, flags: int)
      returns (r: nat, ghost v': Space)
      requires Valid(v) && pid in lists && flags != MAP_PRIVATE + MAP_HUGEPAGE && flags != MAP_SHARED + MAP_HUGEPAGE
      modifies this`lists
      ensures Valid(v')
      ensures !GoodArgs(addr, length, prot, flags) ==> r == 0
      ensures GoodArgs(addr, length, prot, flags) ==> r == 0 || r == addr
      ensures GoodArgs(addr, length, prot, flags) ==>
        (r == addr <==> forall x: nat :: addr / 4096 <= x < addr / 4096 + (length + 4095) / 4096 ==>
            Key(pid, x) !in v.maps)
      ensures r == 0 || !FreeSlot(old(lists)[pid]) ==> lists == old(lists) && v' == v
      ensures r != 0 && FreeSlot(old(lists)[pid]) ==>
        RegionEntered(v, v', pid, addr / 4096, (length + 4095) / 4096, Attr(prot == PROT_WRITE, flags == MAP_SHARED))
    {
      v' := v;
      if !GoodArgs(addr, length, prot, flags) {
        return 0, v;
      }
      var start, n, a := addr / 4096, (length + 4095) / 4096, Attr(prot == PROT_WRITE, flags == MAP_SHARED);
      var clash := Overlaps(v, pid, start, n);
      if clash {
        return 0, v;
      }
      v' := Enter(v, pid, start, n, a);
      return addr, v';
    }

    /** Enters a region in the first free slot, if there is one. */
    method Enter(ghost v: Space, pid: nat, start: nat, n: nat, a: Attr) returns (ghost v': Space)
      requires Valid(v) && pid in lists && start > 0 && n > 0
      requires forall x: nat :: start <= x < start + n ==> Key(pid, x) !in v.maps
      modifies this`lists
      ensures Valid(v')
      ensures !FreeSlot(old(lists)[pid]) ==> lists == old(lists) && v' == v
      ensures FreeSlot(old(lists)[pid]) ==> RegionEntered(v, v', pid, start, n, a)
    {
      v' := v;
      var i := 0;
      while i < 4 && lists[pid][i].start != 0
        invariant 0 <= i <= 4 && lists == old(lists) && forall j: nat :: j < i ==> lists[pid][j].start != 0
      {
        i := i + 1;
      }
      if i < 4 {
        v' := EnterAt(v, pid, i, start, n, a);
      }
    }

    method EnterAt(ghost v: Space, pid: nat, i: nat, start: nat, n: nat, a: Attr) returns (ghost v': Space)
      requires Valid(v) && pid in lists && start > 0 && n > 0
      requires forall x: nat :: start <= x < start + n ==> Key(pid, x) !in v.maps
      requires i < 4 && lists[pid][i].start == 0
      modifies this`lists
      ensures Valid(v') && RegionEntered(v, v', pid, start, n, a)
    {
      v' := MapRegion(pt, frames, refs, v, pid, start, n, a);
      ListsEntered(lists, v.maps, v'.maps, pid, i, Slot(start, n, a));
      lists := lists[pid := lists[pid][i := Slot(start, n, a)]];
    }

    /** The overlap loop: true exactly when some page of the request is mapped already. */
    method Overlaps(ghost v: Space, pid: nat, start: nat, n: nat) returns (r: bool)
      requires Lists(lists, v.maps) && pid in lists && start > 0 && n > 0
      ensures !r <==> forall x: nat :: start <= x < start + n ==> Key(pid, x) !in v.maps
    {
      var list := lists[pid];
      var i := 0;
      while i < 4
        invariant 0 <= i <= 4 && forall j: nat, x: nat :: j < i && start <= x < start + n ==> !InSlot(list[j], x)
      {
        var sl := list[i];
        if (sl.start <= start < sl.start + sl.len) || (start <= sl.start < start + n) {
          ghost var x := if sl.start <= start then start else sl.start;
          assert InSlot(lists[Key(pid, x).pid][i], Key(pid, x).page);
          return true;
        }
        i := i + 1;
      }
      forall x: nat | start <= x < start + n
        ensures Key(pid, x) !in v.maps
      {
        assert !HasPage(list, x);
      }
      return false;
    }

    /**
     * pagefault for a base page; `f` is the frame that kalloc returns, which is free. The promised memory does not
     * change.
     * Unless the process is killed, the page is present afterwards, and a store is possible if the mapping is writable.
     * What programs can observe is as promised exactly if the pages it connects may share.
     */
    method Pagefault(ghost v: Space, pid: nat, page: nat, store: bool, f: nat) returns (killed: bool, ghost v': Space)
      requires Valid(v) && pid in lists && f !in refs && forall k :: k in v.ptes ==> k.pid < NPROC
      modifies this`pt, this`frames, this`refs
      ensures Shows(pt, v'.ptes) && v'.mem == v.mem && v'.maps == v.maps
      ensures SafeFault(v, Key(pid, page)) ==> Valid(v')
      ensures Honest(State(v'.maps, v'.ptes, frames, refs), v'.mem) <==> SafeFault(v, Key(pid, page))
      ensures var k := Key(pid, page);
        killed <==> k !in v.maps || k !in v.ptes || (store && v.ptes[k].v && !v.maps[k].writable)
      ensures killed ==> pt == old(pt) && frames == old(frames) && refs == old(refs)
      ensures !killed ==> var e := Entry(pt, Key(pid, page)); e.v && e.r && (store ==>
        e.w == v.maps[Key(pid, page)].writable)
    {
      v' := v;
      var k := Key(pid, page);
      var i := FindSlot(v, pid, page);
      if i == 4 {
        SimulatesHonest(State(v.maps, v.ptes, frames, refs), v.mem);
        return true, v;
      }
      killed, v' := Serve(v, k, lists[pid][i].attr, store, f);
    }

    /** The base-page branch of pagefault. */
    method Serve(ghost v: Space, k: Key, a: Attr, store: bool, f: nat) returns (killed: bool, ghost v': Space)
      requires Sound(pt, frames, refs, v) && k in v.maps && v.maps[k] == a && f !in refs
      requires forall j :: j in v.ptes ==> j.pid < NPROC
      modifies this`pt, this`frames, this`refs
      ensures Shows(pt, v'.ptes) && v'.mem == v.mem && v'.maps == v.maps
      ensures SafeFault(v, k) ==> Sound(pt, frames, refs, v')
      ensures Honest(State(v'.maps, v'.ptes, frames, refs), v'.mem) <==> SafeFault(v, k)
      ensures k in v.ptes && (killed <==> store && v.ptes[k].v && !a.writable)
      ensures killed ==> pt == old(pt) && frames == old(frames) && refs == old(refs)
      ensures !killed ==> var e := Entry(pt, k); e.v && e.r && (store ==> e.w == a.writable)
    {
      v', killed := v, false;
      FaultReady(pt, frames, refs, v, k, f);
      var e := Entry(pt, k);
      if !e.v && IsPlaceholder(e) {
        v' := FaultConnect(v, k, a, f);
      } else {
        killed, v' := ServeOne(v, k, a, store, f);
        SimulatesHonest(State(v'.maps, v'.ptes, frames, refs), v'.mem);
      }
    }

    /** The branches that concern this process only. */
    method ServeOne(ghost v: Space, k: Key, a: Attr, store: bool, f: nat) returns (killed: bool, ghost v': Space)
      requires Sound(pt, frames, refs, v) && k in v.maps && v.maps[k] == a && f !in refs
      requires k in v.ptes && !IsPlaceholder(v.ptes[k])
      modifies this`pt, this`frames, this`refs
      ensures Sound(pt, frames, refs, v') && v'.mem == v.mem && v'.maps == v.maps
      ensures killed <==> store && v.ptes[k].v && !a.writable
      ensures killed ==> pt == old(pt) && frames == old(frames) && refs == old(refs)
      ensures !killed ==> var e := Entry(pt, k); e.v && e.r && (store ==> e.w == a.writable)
    {
      v', killed := v, false;
      FaultReady(pt, frames, refs, v, k, f);
      var e := Entry(pt, k);
      if e.v {
        if store && !e.w {
          if !IsCow(e) {
            return true, v;
          }
          v' := FaultCopy(v, k, a, f);
        }
      } else {
        v' := FaultFirst(v, k, a, f);
      }
    }

    method FaultCopy(ghost v: Space, k: Key, a: Attr, f: nat) returns (ghost v': Space)
      requires Sound(pt, frames, refs, v) && k in v.maps && v.maps[k] == a && f !in refs && k in v.ptes
      requires IsCow(v.ptes[k])
      modifies this`pt, this`frames, this`refs
      ensures Sound(pt, frames, refs, v') && v'.maps == v.maps && v'.mem == v.mem
      ensures Entry(pt, k) == MakePte(f, a, false, false)
    {
      ghost var pt0, frames0, refs0 := pt, frames, refs;
      FaultReady(pt, frames, refs, v, k, f);
      CopyPage(k, a, f);
      v' := CopyDone(pt0, frames0, refs0, v, k, f, pt, frames, refs);
    }

    method FaultConnect(ghost v: Space, k: Key, a: Attr, f: nat) returns (ghost v': Space)
      requires Sound(pt, frames, refs, v) && k in v.maps && v.maps[k] == a && f !in refs && k in v.ptes
      requires IsPlaceholder(v.ptes[k]) && forall j :: j in v.ptes ==> j.pid < NPROC
      modifies this`pt, this`frames, this`refs
      ensures Shows(pt, v'.ptes) && v'.maps == v.maps && v'.mem == v.mem
      ensures SafeFault(v, k) ==> Sound(pt, frames, refs, v')
      ensures Honest(State(v'.maps, v'.ptes, frames, refs), v'.mem) <==> SafeFault(v, k)
      ensures Entry(pt, k) == MakePte(f, a, false, false)
    {
      ghost var frames0, refs0 := frames, refs;
      SharedExact(State(v.maps, v.ptes, frames, refs), v.mem, k, f);
      if SafeFault(v, k) {
        SharedRefines(State(v.maps, v.ptes, frames, refs), v.mem, k, f);
      }
      ConnectAll(v.ptes, k, a, f);
      v' := Space(v.maps, Connect(v.ptes, k.page, MakePte(f, a, false, false)), v.mem);
      assert FaultShared(State(v.maps, v.ptes, frames0, refs0), k, f) == State(v'.maps, v'.ptes, frames, refs);
    }

    method FaultFirst(ghost v: Space, k: Key, a: Attr, f: nat) returns (ghost v': Space)
      requires Sound(pt, frames, refs, v) && k in v.maps && v.maps[k] == a && f !in refs && k in v.ptes
      requires v.ptes[k] == NONE
      modifies this`pt, this`frames, this`refs
      ensures Sound(pt, frames, refs, v') && v'.maps == v.maps && v'.mem == v.mem
      ensures Entry(pt, k) == MakePte(f, a, false, false)
    {
      v' := FirstDone(pt, frames, refs, v, k, a, f);
      frames, refs := frames[f := ZEROS], refs[f := 1];
      pt := pt[k := MakePte(f, a, false, false)];
    }

    /** A store to a copy-on-write page. */
    method CopyPage(k: Key, a: Attr, f: nat)
      requires f !in refs && Entry(pt, k).frame in frames && Entry(pt, k).frame in refs
      modifies this`pt, this`frames, this`refs
      ensures pt == old(pt)[k := MakePte(f, a, false, false)]
      ensures Moved(old(frames), frames, old(refs), refs, Entry(old(pt), k).frame, f)
    {
      var o := Entry(pt, k).frame;
      frames, refs := frames[f := ZEROS], refs[f := 1];
      frames := frames[f := frames[o]];
      if refs[o] <= 1 {
        frames, refs := frames - {o}, refs - {o};
      } else {
        refs := refs[o := refs[o] - 1];
      }
      pt := pt[k := MakePte(f, a, false, false)];
    }

    /** First touch of a shared page after fork: every waiting process at this address is given the new page. */
    method ConnectAll(ghost ptes: map<Key, Pte>, k: Key, a: Attr, f: nat)
      requires Shows(pt, ptes) && k in ptes && IsPlaceholder(ptes[k]) && f !in refs
      requires forall j :: j in ptes ==> j.pid < NPROC
      modifies this`pt, this`frames, this`refs
      ensures Shows(pt, Connect(ptes, k.page, MakePte(f, a, false, false)))
      ensures frames == old(frames)[f := ZEROS] && refs == old(refs)[f := |Waiting(ptes, k.page)|]
    {
      ghost var pt0 := pt;
      frames, refs := frames[f := ZEROS], refs[f := 1];
      pt := pt[k := MakePte(f, a, false, false)];
      ConnectStart(pt0, pt, ptes, k, MakePte(f, a, false, false));
      ConnectOthers(pt0, ptes, k, MakePte(f, a, false, false));
      ConnectDone(pt0, pt, ptes, k, MakePte(f, a, false, false));
    }

    /** The loop over the process table. */
    method ConnectOthers(ghost pt0: map<Key, Pte>, ghost ptes: map<Key, Pte>, k: Key, e: Pte)
      requires Shows(pt0, ptes) && ConnectedTo(pt0, pt, k, 0, e) && e.v
      requires e.frame in refs && refs[e.frame] == |WaitingTo(ptes, k, 0)|
      modifies this`pt, this`refs
      ensures ConnectedTo(pt0, pt, k, NPROC, e) && refs == old(refs)[e.frame := |WaitingTo(ptes, k, NPROC)|]
    {
      ghost var refs0 := refs;
      var q := 0;
      while q < NPROC
        invariant 0 <= q <= NPROC && ConnectedTo(pt0, pt, k, q, e)
        invariant e.frame in refs && refs[e.frame] == |WaitingTo(ptes, k, q)| && refs == refs0[e.frame := refs[e.frame]]
      {
        var j := Key(q, k.page);
        WaitNext(ptes, k, q);
        ConnectNext(pt0, pt, ptes, k, q, e);
        if q != k.pid && IsPlaceholder(Entry(pt, j)) {
          pt := pt[j := e];
          refs := refs[e.frame := refs[e.frame] + 1];
        }
        q := q + 1;
      }
    }
  }

  lemma ConnectStart(pt0: map<Key, Pte>, pt: map<Key, Pte>, ptes: map<Key, Pte>, k: Key, e: Pte)
    requires Shows(pt0, ptes) && k in ptes && IsPlaceholder(ptes[k]) && pt == pt0[k := e]
    ensures ConnectedTo(pt0, pt, k, 0, e) && |WaitingTo(ptes, k, 0)| == 1
  {
    WaitStart(ptes, k);
  }

  lemma ConnectNext(pt0: map<Key, Pte>, pt: map<Key, Pte>, ptes: map<Key, Pte>, k: Key, q: nat, e: Pte)
    requires Shows(pt0, ptes) && ConnectedTo(pt0, pt, k, q, e) && e.v
    ensures var j := Key(q, k.page);
      && ConnectedTo(pt0, if q != k.pid && IsPlaceholder(Entry(pt, j)) then pt[j := e] else pt, k, q + 1, e)
      && (q != k.pid && IsPlaceholder(Entry(pt, j)) <==> q != k.pid && j in ptes && IsPlaceholder(ptes[j]))
  {
    var j := Key(q, k.page);
    assert Entry(pt, j) == if j.pid == k.pid && IsPlaceholder(Entry(pt0, j)) then e else Entry(pt0, j);
    forall i: Key | i.page == k.page && i.pid == q
      ensures i == j
    {
    }
  }

  lemma ConnectDone(pt0: map<Key, Pte>, pt: map<Key, Pte>, ptes: map<Key, Pte>, k: Key, e: Pte)
    requires Shows(pt0, ptes) && ConnectedTo(pt0, pt, k, NPROC, e) && forall j :: j in ptes ==> j.pid < NPROC
    ensures Shows(pt, Connect(ptes, k.page, e)) && WaitingTo(ptes, k, NPROC) == Waiting(ptes, k.page)
  {
    forall j: Key
      ensures Entry(pt, j) == if j.page == k.page && j in ptes && IsPlaceholder(ptes[j]) then e else Entry(pt0, j)
    {
    }
  }

  ghost function WaitingTo(ptes: map<Key, Pte>, k: Key, q: nat): set<Key> {
    set j | j in Waiting(ptes, k.page) && (j.pid < q || j.pid == k.pid)
  }

  ghost predicate ConnectedTo(pt0: map<Key, Pte>, pt: map<Key, Pte>, k: Key, q: nat, e: Pte) {
    forall j :: Entry(pt, j) ==
        if j.page == k.page && (j.pid < q || j.pid == k.pid) && IsPlaceholder(Entry(pt0, j)) then e else Entry(pt0, j)
  }

  lemma WaitStart(ptes: map<Key, Pte>, k: Key)
    requires k in ptes && IsPlaceholder(ptes[k])
    ensures |WaitingTo(ptes, k, 0)| == 1
  {
    assert WaitingTo(ptes, k, 0) == {k};
  }

  lemma WaitNext(ptes: map<Key, Pte>, k: Key, q: nat)
    ensures var j := Key(q, k.page);
      |WaitingTo(ptes, k, q + 1)| == |WaitingTo(ptes, k,
          q)| + if q != k.pid && j in ptes && IsPlaceholder(ptes[j]) then 1 else 0
  {
    var j := Key(q, k.page);
    if q != k.pid && j in ptes && IsPlaceholder(ptes[j]) {
      assert WaitingTo(ptes, k, q + 1) == WaitingTo(ptes, k, q) + {j};
    } else {
      assert WaitingTo(ptes, k, q + 1) == WaitingTo(ptes, k, q);
    }
  }

  lemma FirstDone(pt: map<Key, Pte>, frames: map<nat, Data>, refs: map<nat, nat>, v: Space, k: Key, a: Attr, f: nat)
    returns (v': Space)
    requires Sound(pt, frames, refs, v) && k in v.maps && v.maps[k] == a && f !in refs && k in v.ptes
    requires v.ptes[k] == NONE
    ensures Sound(pt[k := MakePte(f, a, false, false)], frames[f := ZEROS], refs[f := 1], v') && v'.maps == v.maps
    ensures v'.mem == v.mem
  {
    var s := State(v.maps, v.ptes, frames, refs);
    FreshRefines(s, v.mem, k, f);
    v' := Space(v.maps, v.ptes[k := MakePte(f, a, false, false)], v.mem);
    FirstEffect(s, k, f);
    PutShows(pt, v.ptes, k, MakePte(f, a, false, false));
  }

  lemma FirstEffect(s: State, k: Key, f: nat)
    requires k in s.maps
    ensures FaultFresh(s, k, f) == State(s.maps, s.ptes[k := MakePte(f, s.maps[k], false, false)], s.frames[f := ZEROS],
      s.refs[f := 1])
  {
  }

  lemma PutShows(pt: map<Key, Pte>, ptes: map<Key, Pte>, k: Key, e: Pte)
    requires Shows(pt, ptes) && k in ptes
    ensures Shows(pt[k := e], ptes[k := e])
  {
  }

  lemma CopyDone(pt: map<Key, Pte>, frames: map<nat, Data>, refs: map<nat, nat>, v: Space, k: Key, f: nat,
                 pt': map<Key, Pte>, frames': map<nat, Data>, refs': map<nat, nat>) returns (v': Space)
    requires Sound(pt, frames, refs, v) && k in v.maps && f !in refs && k in v.ptes && IsCow(v.ptes[k])
    requires pt' == pt[k := MakePte(f, v.maps[k], false, false)]
    requires Moved(frames, frames', refs, refs', v.ptes[k].frame, f)
    ensures Sound(pt', frames', refs', v') && v'.maps == v.maps && v'.mem == v.mem
  {
    var s := State(v.maps, v.ptes, frames, refs);
    CowRefines(s, v.mem, k, f);
    v' := Space(v.maps, v.ptes[k := MakePte(f, v.maps[k], false, false)], v.mem);
    CopyEffect(s, k, f, frames', refs');
    PutShows(pt, v.ptes, k, MakePte(f, v.maps[k], false, false));
  }

  /** A copy of page `o` in the new page `f`, and one reference less to `o`. */
  ghost predicate Moved(frames: map<nat, Data>, frames': map<nat, Data>, refs: map<nat, nat>, refs': map<nat, nat>,
                        o: nat, f: nat) {
    && o in frames && o in refs
    && frames' == (if refs[o] <= 1 then frames[f := frames[o]] - {o} else frames[f := frames[o]])
    && refs' == (if refs[o] <= 1 then refs[f := 1] - {o} else refs[f := 1][o := refs[o] - 1])
  }

  lemma CopyEffect(s: State, k: Key, f: nat, frames': map<nat, Data>, refs': map<nat, nat>)
    requires k in s.maps && k in s.ptes && s.ptes[k].frame in s.frames && s.ptes[k].frame in s.refs && f !in s.refs
    requires Moved(s.frames, frames', s.refs, refs', s.ptes[k].frame, f)
    ensures FaultCow(s, k, f) == State(s.maps, s.ptes[k := MakePte(f, s.maps[k], false, false)], frames', refs')
  {
    var o := s.ptes[k].frame;
    assert s.frames[f := ZEROS][f := s.frames[o]] == s.frames[f := s.frames[o]];
  }

  lemma FaultReady(pt: map<Key, Pte>, frames: map<nat, Data>, refs: map<nat, nat>, v: Space, k: Key, f: nat)
    requires Sound(pt, frames, refs, v) && k in v.maps && f !in refs
    ensures k in v.ptes && Entry(pt, k) == v.ptes[k] && Flagged(v.maps[k], v.ptes[k])
    ensures v.ptes[k].v ==> v.ptes[k].frame in frames && v.ptes[k].frame in refs
  {
  }

  predicate GoodArgs(addr: nat, length: int, prot: int, flags: int) {
    && PHYSTOP <= addr <= LAST && addr % 4096 == 0 && 0 < length <= 0x400_0000
    && (prot == PROT_READ || prot == PROT_WRITE) && (flags == MAP_PRIVATE || flags == MAP_SHARED)
  }

  /** The pages of a region are mapped with `a` and read as zero; all other pages are as before. */
  ghost predicate RegionEntered(v: Space, v': Space, pid: nat, start: nat, n: nat, a: Attr) {
    && More(v.maps, v'.maps, pid, start, n, a)
    && (forall k: Key {:trigger Kept(v.mem, v'.mem, k)} :: Kept(v.mem, v'.mem, k))
    && (forall k: Key {:trigger Fresh(v'.mem, k, a)} :: InRegion(k, pid, start, n) ==> Fresh(v'.mem, k, a))
  }

  ghost predicate Fresh(m: Mem, k: Key, a: Attr) {
    k in m.kinds && KindOk(a, m.kinds[k]) && Contents(m, k) == ZEROS
  }

  lemma MapRegion(pt: map<Key, Pte>, frames: map<nat, Data>, refs: map<nat, nat>, v: Space, pid: nat, start: nat,
                  n: nat, a: Attr)
    returns (v': Space)
    requires Sound(pt, frames, refs, v) && forall x: nat :: start <= x < start + n ==> Key(pid, x) !in v.maps
    ensures Sound(pt, frames, refs, v') && RegionEntered(v, v', pid, start, n, a)
  {
    v' := v;
    EnteredNone(v, pid, start, a);
    var i := 0;
    while i < n
      invariant i <= n && Sound(pt, frames, refs, v') && RegionEntered(v, v', pid, start, i, a)
    {
      v' := MapStep(pt, frames, refs, v, v', pid, start, i, a);
      i := i + 1;
    }
  }

  lemma MapStep(pt: map<Key, Pte>, frames: map<nat, Data>, refs: map<nat, nat>, v: Space, v1: Space, pid: nat,
                start: nat, x: nat, a: Attr)
    returns (v': Space)
    requires Sound(pt, frames, refs, v1) && RegionEntered(v, v1, pid, start, x, a) && Key(pid, start + x) !in v.maps
    ensures Sound(pt, frames, refs, v') && RegionEntered(v, v', pid, start, x + 1, a)
  {
    NotYet(v, v1, pid, start, x, a);
    v' := MapOne(pt, frames, refs, v1, Key(pid, start + x), a);
    EnteredNext(v, v1, v', pid, start, x, a);
  }

  lemma EnteredNone(v: Space, pid: nat, start: nat, a: Attr)
    ensures RegionEntered(v, v, pid, start, 0, a)
  {
    forall k: Key
      ensures Kept(v.mem, v.mem, k)
    {
    }
  }

  lemma NotYet(v: Space, v1: Space, pid: nat, start: nat, n: nat, a: Attr)
    requires RegionEntered(v, v1, pid, start, n, a) && Key(pid, start + n) !in v.maps
    ensures Key(pid, start + n) !in v1.maps
  {
  }

  ghost predicate EnteredOne(v: Space, v': Space, k: Key, a: Attr) {
    && v'.maps == v.maps[k := a] && Fresh(v'.mem, k, a)
    && forall j: Key {:trigger Kept(v.mem, v'.mem, j)} :: Kept(v.mem, v'.mem, j)
  }

  lemma MapOne(pt: map<Key, Pte>, frames: map<nat, Data>, refs: map<nat, nat>, v: Space, k: Key, a: Attr)
    returns (v': Space)
    requires Sound(pt, frames, refs, v) && k !in v.maps
    ensures Sound(pt, frames, refs, v') && EnteredOne(v, v', k, a)
  {
    var s := State(v.maps, v.ptes, frames, refs);
    MapRefines(s, v.mem, k, a);
    MapContents(v.mem, k, a);
    v' := Space(v.maps[k := a], if k in v.ptes then v.ptes else v.ptes[k := NONE], MapMem(v.mem, k, a));
    assert MapPage(s, k, a) == State(v'.maps, v'.ptes, frames, refs);
    forall j: Key
      ensures Kept(v.mem, v'.mem, j)
    {
    }
  }

  lemma EnteredNext(v: Space, v1: Space, v2: Space, pid: nat, start: nat, n: nat, a: Attr)
    requires RegionEntered(v, v1, pid, start, n, a) && EnteredOne(v1, v2, Key(pid, start + n), a)
    ensures RegionEntered(v, v2, pid, start, n + 1, a)
  {
    MoreNext(v.maps, v1.maps, pid, start, n, a);
    forall k: Key
      ensures Kept(v.mem, v2.mem, k)
      ensures InRegion(k, pid, start, n + 1) ==> Fresh(v2.mem, k, a)
    {
      assert Kept(v.mem, v1.mem, k) && Kept(v1.mem, v2.mem, k);
      assert InRegion(k, pid, start, n) ==> Fresh(v1.mem, k, a);
      assert InRegion(k, pid, start, n + 1) && !InRegion(k, pid, start, n) ==> k == Key(pid, start + n);
    }
  }

  lemma ListsEntered(lists: map<nat, seq<Slot>>, maps: map<Key, Attr>, maps': map<Key, Attr>, pid: nat, i: nat,
                     sl: Slot)
    requires Lists(lists, maps) && pid in lists && i < 4 && lists[pid][i].start == 0 && sl.start > 0 && sl.len > 0
    requires More(maps, maps', pid, sl.start, sl.len, sl.attr)
    requires forall x: nat :: sl.start <= x < sl.start + sl.len ==> Key(pid, x) !in maps
    ensures Lists(lists[pid := lists[pid][i := sl]], maps')
  {
    var list := lists[pid];
    var lists' := lists[pid := list[i := sl]];
    forall k: Key
      ensures k in maps' <==> k.pid in lists' && HasPage(lists'[k.pid], k.page)
      ensures k.pid == pid && InSlot(sl, k.page) ==> k !in maps
    {
      assert k.pid == pid ==> k == Key(pid, k.page);
      assert k in maps <==> k.pid in lists && HasPage(lists[k.pid], k.page);
      assert k.pid == pid ==> (InRegion(k, pid, sl.start, sl.len) <==> InSlot(sl, k.page));
    }
    forall k: Key, j: nat | k.pid in lists' && j < 4 && InSlot(lists'[k.pid][j], k.page)
      ensures k in maps' && maps'[k] == lists'[k.pid][j].attr
    {
      if !(k.pid == pid && j == i) {
        assert InSlot(lists[k.pid][j], k.page);
      }
    }
    forall q: nat, b: nat, c: nat, x: nat | q in lists' && b < c < |lists'[q]|
      ensures !(InSlot(lists'[q][b], x) && InSlot(lists'[q][c], x))
    {
      assert !(InSlot(lists[q][b], x) && InSlot(lists[q][c], x));
      assert q == pid && InSlot(sl, x) ==> Key(pid, x) !in maps;
      assert q == pid && b != i && InSlot(list[b], x) ==> InSlot(lists[Key(pid, x).pid][b], Key(pid, x).page);
      assert q == pid && c != i && InSlot(list[c], x) ==> InSlot(lists[Key(pid, x).pid][c], Key(pid, x).page);
    }
  }

  /** Pages of other processes stay as they are. */
  ghost predicate Survives(v: Space, v': Space, pid: nat) {
    && (forall k: Key {:trigger k in v'.maps} :: k.pid != pid ==> (k in v'.maps <==> k in v.maps))
    && (forall k: Key {:trigger k in v'.mem.kinds} :: k.pid != pid ==> (k in v'.mem.kinds <==> k in v.mem.kinds))
    && (forall k: Key {:trigger v'.mem.kinds[k]} :: k.pid != pid && k in v'.mem.kinds && k in v.mem.kinds ==>
          v'.mem.kinds[k] == v.mem.kinds[k] && Contents(v'.mem, k) == Contents(v.mem, k))
    && v'.mem.own == v.mem.own && v'.mem.objs == v.mem.objs
  }

  lemma SurvivesOn(v: Space, v1: Space, v2: Space, pid: nat, start: nat, n: nat)
    requires Survives(v, v1, pid) && Removed(v1, v2, pid, start, n)
    ensures Survives(v, v2, pid)
  {
    forall k: Key | k.pid != pid && k in v2.mem.kinds && k in v.mem.kinds
      ensures v2.mem.kinds[k] == v.mem.kinds[k] && Contents(v2.mem, k) == Contents(v.mem, k)
    {
      assert k in v1.mem.kinds && v1.mem.kinds[k] == v.mem.kinds[k];
    }
  }

  lemma NoneCovered(lists: map<nat, seq<Slot>>, maps: map<Key, Attr>, pid: nat)
    requires Lists(lists, maps) && pid in lists && forall j: nat :: j < 4 ==> lists[pid][j].start == 0
    ensures forall x: nat :: Key(pid, x) !in maps
  {
    forall x: nat
      ensures Key(pid, x) !in maps
    {
      assert !HasPage(lists[pid], x);
    }
  }

  /** The page table of a process without mapped pages can be freed. */
  lemma TableFreed(pt: map<Key, Pte>, frames: map<nat, Data>, refs: map<nat, nat>, v: Space, pid: nat)
    returns (v': Space)
    requires Sound(pt, frames, refs, v) && forall x: nat :: Key(pid, x) !in v.maps
    ensures Sound(map k: Key | k in pt && k.pid != pid :: pt[k], frames, refs, v')
    ensures v'.maps == v.maps && v'.mem == v.mem && forall x: nat :: Key(pid, x) !in v'.ptes
  {
    v' := v.(ptes := OthersOf(v.ptes, pid));
    forall k: Key | k.pid == pid
      ensures k !in v.maps
    {
      assert k == Key(pid, k.page);
    }
    TableIdle(State(v.maps, v.ptes, frames, refs), v.mem, pid);
    var pt' := map k: Key | k in pt && k.pid != pid :: pt[k];
    assert Shows(pt', v'.ptes);
  }

  lemma TableIdle(s: State, m: Mem, pid: nat)
    requires Simulates(s, m) && forall k: Key :: k.pid == pid ==> k !in s.maps
    ensures Simulates(s.(ptes := OthersOf(s.ptes, pid)), m)
  {
    var t := s.(ptes := OthersOf(s.ptes, pid));
    forall f | f in s.refs
      ensures Mappers(t.ptes, f) == Mappers(s.ptes, f)
    {
    }
    DropRefines(s, m, t, {});
    assert m.kinds - {} == m.kinds;
  }

  const LAST := 0x3f_f000_0000

  lemma SlotMapped(lists: map<nat, seq<Slot>>, maps: map<Key, Attr>, pid: nat, i: nat)
    requires Lists(lists, maps) && pid in lists && i < 4 && lists[pid][i].start != 0
    ensures Mapped(maps, pid, lists[pid][i].start, lists[pid][i].len)
  {
    forall k: Key | InRegion(k, pid, lists[pid][i].start, lists[pid][i].len)
      ensures k in maps
    {
      assert InSlot(lists[k.pid][i], k.page);
    }
  }

  lemma ListsCleared(lists: map<nat, seq<Slot>>, maps: map<Key, Attr>, maps': map<Key, Attr>, pid: nat, i: nat)
    requires Lists(lists, maps) && pid in lists && i < 4 && lists[pid][i].start != 0
    requires Less(maps, maps', pid, lists[pid][i].start, lists[pid][i].len)
    ensures Lists(lists[pid := lists[pid][i := FREE]], maps')
  {
    var list := lists[pid];
    var lists' := lists[pid := list[i := FREE]];
    forall k: Key
      ensures k in maps' <==> k.pid in lists' && HasPage(lists'[k.pid], k.page)
    {
      assert k in maps <==> k.pid in lists && HasPage(lists[k.pid], k.page);
      assert k.pid == pid ==> (InRegion(k, pid, list[i].start, list[i].len) <==> InSlot(list[i], k.page));
      assert forall j: nat :: j < 4 && j != i && k.pid == pid && InSlot(list[j], k.page) ==> !InSlot(list[i], k.page);
    }
    forall k: Key, j: nat | k.pid in lists' && j < 4 && InSlot(lists'[k.pid][j], k.page)
      ensures k in maps' && maps'[k] == lists'[k.pid][j].attr
    {
      assert InSlot(lists[k.pid][j], k.page);
    }
    forall q: nat, a: nat, b: nat, x: nat | q in lists' && a < b < |lists'[q]|
      ensures !(InSlot(lists'[q][a], x) && InSlot(lists'[q][b], x))
    {
      assert !(InSlot(lists[q][a], x) && InSlot(lists[q][b], x));
    }
  }

  ghost predicate ForkedSlots(v: Space, v': Space, list: seq<Slot>, p: nat, np: nat, i: nat) {
    Inherits(v.mem, v'.mem, p, np) && Shared(v.maps, v'.maps, list, np, i) && Clean(v', np)
  }

  lemma CleanNew(v: Space, np: nat)
    requires v.maps.Keys <= v.ptes.Keys && forall x: nat :: Key(np, x) !in v.ptes
    ensures Clean(v, np) && forall x: nat :: Key(np, x) !in v.maps
  {
    forall k: Key | k.pid == np
      ensures k !in v.ptes
    {
      assert k == Key(np, k.page);
    }
  }

  lemma ForkNone(v: Space, list: seq<Slot>, p: nat, np: nat)
    requires |list| == 4 && Clean(v, np)
    ensures ForkedSlots(v, v, list, p, np, 0)
  {
    forall k: Key
      ensures Kept(v.mem, v.mem, k) && Copied(v.mem, v.mem, p, np, k)
    {
    }
  }

  lemma SharedFree(maps0: map<Key, Attr>, maps: map<Key, Attr>, list: seq<Slot>, np: nat, i: nat)
    requires i < |list| == 4 && Shared(maps0, maps, list, np, i) && list[i].start == 0
    ensures Shared(maps0, maps, list, np, i + 1)
  {
    forall k: Key
      ensures k in maps <==> k in maps0 || (k.pid == np && InFirst(list, i + 1, k.page))
    {
    }
    forall x: nat, j: nat | j < i + 1
      ensures Entered(maps, list, np, j, x)
    {
      assert j < i ==> Entered(maps, list, np, j, x);
    }
  }

  lemma ForkCovers(v: Space, v': Space, lists: map<nat, seq<Slot>>, p: nat, np: nat)
    requires v.mem.kinds.Keys == v.maps.Keys && v'.mem.kinds.Keys == v'.maps.Keys
    requires Lists(lists, v.maps) && p in lists && Shared(v.maps, v'.maps, lists[p], np, 4)
    ensures forall x: nat :: Key(p, x) in v.mem.kinds ==> Key(np, x) in v'.mem.kinds
  {
    forall x: nat | Key(p, x) in v.mem.kinds
      ensures Key(np, x) in v'.mem.kinds
    {
      assert Key(p, x) in v.maps;
      assert Key(np, x) in v'.maps;
    }
  }

  predicate InFirst(list: seq<Slot>, i: nat, page: nat) {
    && |list| == 4
    && ((i > 0 && InSlot(list[0], page)) || (i > 1 && InSlot(list[1], page)) || (i > 2 && InSlot(list[2],
          page)) || (i > 3 && InSlot(list[3], page)))
  }

  /** The first `i` slots of `list` have been entered for the child. */
  ghost predicate Shared(maps0: map<Key, Attr>, maps: map<Key, Attr>, list: seq<Slot>, np: nat, i: nat) {
    && i <= 4 == |list|
    && (forall k: Key {:trigger k in maps} :: k in maps <==> k in maps0 || (k.pid == np && InFirst(list, i, k.page)))
    && (forall k: Key {:trigger maps[k]} :: k in maps0 && k in maps ==> maps[k] == maps0[k])
    && (forall x: nat, j: nat {:trigger Entered(maps, list, np, j, x)} :: j < i ==> Entered(maps, list, np, j, x))
  }

  ghost predicate Entered(maps: map<Key, Attr>, list: seq<Slot>, np: nat, j: nat, x: nat) {
    j < |list| && InSlot(list[j], x) ==> Key(np, x) in maps && maps[Key(np, x)] == list[j].attr
  }

  /** Nothing of a slot's region belongs to the child yet. */
  lemma ForkStart(v: Space, v1: Space, lists: map<nat, seq<Slot>>, p: nat, np: nat, i: nat)
    requires Lists(lists, v.maps) && p in lists && p != np && i < 4 && lists[p][i].start != 0
    requires forall x: nat :: Key(np, x) !in v.maps
    requires Shared(v.maps, v1.maps, lists[p], np, i) && v1.mem.kinds.Keys == v1.maps.Keys && Clean(v1, np)
    ensures ForkSoFar(v1, v1, p, np, lists[p][i].start, lists[p][i].len, 0, lists[p][i].attr)
  {
    var sl := lists[p][i];
    forall y: nat | sl.start <= y < sl.start + sl.len
      ensures Key(p, y) in v1.mem.kinds && Key(p, y) in v1.maps && v1.maps[Key(p, y)] == sl.attr
      ensures Key(np, y) !in v1.maps
    {
      assert InSlot(lists[Key(p, y).pid][i], Key(p, y).page);
      assert forall j: nat :: j < i ==> !InSlot(lists[p][j], y);
      assert Key(p, y) in v1.maps && Key(np, y) !in v1.maps;
    }
    forall k: Key
      ensures Kept(v1.mem, v1.mem, k) && Copied(v1.mem, v1.mem, p, np, k)
    {
    }
  }

  lemma SharedNext(maps0: map<Key, Attr>, maps1: map<Key, Attr>, maps2: map<Key, Attr>, list: seq<Slot>, np: nat,
                   i: nat)
    requires i < |list| == 4 && Shared(maps0, maps1, list, np, i) && list[i].start != 0
    requires forall x: nat, j: nat :: j < i ==> !(InSlot(list[j], x) && InSlot(list[i], x))
    requires More(maps1, maps2, np, list[i].start, list[i].len, list[i].attr) && forall x: nat :: Key(np, x) !in maps0
    ensures Shared(maps0, maps2, list, np, i + 1)
  {
    forall k: Key
      ensures k in maps2 <==> k in maps0 || (k.pid == np && InFirst(list, i + 1, k.page))
    {
      assert k in maps1 <==> k in maps0 || (k.pid == np && InFirst(list, i, k.page));
    }
    forall x: nat, j: nat | j < i + 1
      ensures Entered(maps2, list, np, j, x)
    {
      assert j < i ==> Entered(maps1, list, np, j, x);
      assert InRegion(Key(np, x), np, list[i].start, list[i].len) <==> InSlot(list[i], x);
      assert j < i && InSlot(list[j], x) ==> Key(np, x) in maps1;
    }
  }

  lemma InheritsOn(m0: Mem, m1: Mem, m2: Mem, p: nat, np: nat)
    requires Inherits(m0, m1, p, np) && Inherits(m1, m2, p, np) && p != np
    ensures Inherits(m0, m2, p, np)
  {
    forall k: Key
      ensures Kept(m0, m2, k) && Copied(m0, m2, p, np, k)
    {
      assert Kept(m0, m1, k) && Kept(m1, m2, k) && Copied(m0, m1, p, np, k) && Copied(m1, m2, p, np, k);
      var from := Key(p, k.page);
      assert Kept(m0, m1, from) && Copied(m0, m1, p, np, from) && Kept(m1, m2, from);
    }
  }

  lemma ListsForked(lists: map<nat, seq<Slot>>, maps: map<Key, Attr>, maps': map<Key, Attr>, p: nat, np: nat)
    requires Lists(lists, maps) && p in lists && p != np && Shared(maps, maps', lists[p], np, 4)
    requires forall x: nat :: Key(np, x) !in maps
    ensures Lists(lists[np := lists[p]], maps')
  {
    var lists', list := lists[np := lists[p]], lists[p];
    forall k: Key
      ensures k in maps' <==> k.pid in lists' && HasPage(lists'[k.pid], k.page)
    {
      assert k.pid == np ==> k == Key(np, k.page);
      assert k in maps <==> k.pid in lists && HasPage(lists[k.pid], k.page);
    }
    forall k: Key, i: nat | k.pid in lists' && i < 4 && InSlot(lists'[k.pid][i], k.page)
      ensures k in maps' && maps'[k] == lists'[k.pid][i].attr
    {
      if k.pid == np {
        assert Entered(maps', list, np, i, k.page) && k == Key(np, k.page);
      } else {
        assert InSlot(lists[k.pid][i], k.page);
      }
    }
    forall q: nat, i: nat, j: nat, x: nat | q in lists' && i < j < |lists'[q]|
      ensures !(InSlot(lists'[q][i], x) && InSlot(lists'[q][j], x))
    {
      var o := if q == np then p else q;
      assert !(InSlot(lists[o][i], x) && InSlot(lists[o][j], x));
    }
  }

  /** The process has entries only for its mapped pages. */
  ghost predicate Clean(v: Space, pid: nat) {
    forall k: Key :: k in v.ptes && k.pid == pid ==> k in v.maps
  }

  /** Fork of a region of `n` pages has reached page `x` of it. */
  ghost predicate ForkSoFar(v0: Space, v: Space, p: nat, np: nat, start: nat, n: nat, x: nat, a: Attr) {
    && p != np && Inherits(v0.mem, v.mem, p, np) && More(v0.maps, v.maps, np, start, x, a) && Clean(v, np)
    && (forall y: nat {:trigger Key(p, y)} ::
          start <= y < start + n ==> Key(p, y) in v0.mem.kinds && Key(p, y) in v0.maps && v0.maps[Key(p, y)] == a)
    && (forall y: nat {:trigger Key(np, y)} :: start <= y < start + n ==> Key(np, y) !in v0.maps)
  }

  /** Page `k` is gone and the promised bytes of all others stay. */
  ghost predicate Dropped(v: Space, v': Space, k: Key) {
    && k in v.ptes && v'.maps == v.maps - {k} && v'.ptes == v.ptes[k := LeftBehind(v.ptes[k])]
    && v'.mem.kinds == v.mem.kinds - {k}
    && v'.mem.own == v.mem.own && v'.mem.objs == v.mem.objs
  }

  ghost predicate Removed(v: Space, v': Space, pid: nat, start: nat, n: nat) {
    && Less(v.maps, v'.maps, pid, start, n) && Less(v.mem.kinds, v'.mem.kinds, pid, start, n)
    && Leaves(v.ptes, v'.ptes, pid, start, n)
    && v'.mem.own == v.mem.own && v'.mem.objs == v.mem.objs
  }

  /** The entries after the release loop: those of a region without their pages. */
  ghost predicate Leaves(ptes: map<Key, Pte>, ptes': map<Key, Pte>, pid: nat, start: nat, n: nat) {
    forall k: Key {:trigger Entry(ptes', k)} ::
      Entry(ptes', k) == if InRegion(k, pid, start, n) then LeftBehind(Entry(ptes, k)) else Entry(ptes, k)
  }

  lemma LeavesNext(ptes: map<Key, Pte>, ptes1: map<Key, Pte>, ptes2: map<Key, Pte>, pid: nat, start: nat, a: nat)
    requires Leaves(ptes, ptes1, pid, start, a) && Key(pid, start + a) in ptes1
    requires ptes2 == ptes1[Key(pid, start + a) := LeftBehind(ptes1[Key(pid, start + a)])]
    ensures Leaves(ptes, ptes2, pid, start, a + 1)
  {
    forall k: Key
      ensures Entry(ptes2, k) == if InRegion(k, pid, start, a + 1) then LeftBehind(Entry(ptes, k)) else Entry(ptes, k)
    {
      assert Entry(ptes1, k) == if InRegion(k, pid, start, a) then LeftBehind(Entry(ptes, k)) else Entry(ptes, k);
    }
  }

  lemma RemovedNext(v: Space, v1: Space, v2: Space, pid: nat, start: nat, a: nat)
    requires Removed(v, v1, pid, start, a) && Dropped(v1, v2, Key(pid, start + a))
    ensures Removed(v, v2, pid, start, a + 1)
  {
    LessNext(v.maps, v1.maps, pid, start, a);
    LeavesNext(v.ptes, v1.ptes, v2.ptes, pid, start, a);
    LessNext(v.mem.kinds, v1.mem.kinds, pid, start, a);
  }

  predicate InRegion(k: Key, pid: nat, start: nat, n: nat) {
    k.pid == pid && start <= k.page < start + n
  }

  ghost predicate Mapped(maps: map<Key, Attr>, pid: nat, start: nat, n: nat) {
    forall k: Key :: InRegion(k, pid, start, n) ==> k in maps
  }

  /** A map without the keys of a region. */
  ghost predicate Less<T>(m: map<Key, T>, m': map<Key, T>, pid: nat, start: nat, n: nat) {
    && (forall k: Key :: k in m' <==> k in m && !InRegion(k, pid, start, n))
    && (forall k: Key :: k in m' ==> m'[k] == m[k])
  }

  lemma LessNext<T>(m: map<Key, T>, m1: map<Key, T>, pid: nat, start: nat, a: nat)
    requires Less(m, m1, pid, start, a)
    ensures Less(m, m1 - {Key(pid, start + a)}, pid, start, a + 1)
  {
    forall k: Key
      ensures k in m1 - {Key(pid, start + a)} <==> k in m && !InRegion(k, pid, start, a + 1)
    {
    }
  }

  /** A map with the pages of a region added, all with attributes `a`. */
  ghost predicate More(m: map<Key, Attr>, m': map<Key, Attr>, pid: nat, start: nat, n: nat, a: Attr) {
    && (forall k: Key :: k in m' <==> k in m || InRegion(k, pid, start, n))
    && (forall k: Key :: k in m' ==> m'[k] == if InRegion(k, pid, start, n) then a else m[k])
  }

  lemma MoreNext(m: map<Key, Attr>, m1: map<Key, Attr>, pid: nat, start: nat, x: nat, a: Attr)
    requires More(m, m1, pid, start, x, a)
    ensures More(m, m1[Key(pid, start + x) := a], pid, start, x + 1, a)
  {
    forall k: Key
      ensures k in m1[Key(pid, start + x) := a] <==> k in m || InRegion(k, pid, start, x + 1)
    {
    }
  }

  ghost predicate ForkedEntries(pt: map<Key, Pte>, pt': map<Key, Pte>, refs: map<nat, nat>, refs': map<nat, nat>,
                                a: Attr, k: Key, c: Key) {
    var e := Entry(pt, k);
    && Entry(pt', k) == ForkParent(a, e) && Entry(pt', c) == ForkChild(a, ForkParent(a, e))
    && (forall j :: j != k && j != c ==> Entry(pt', j) == Entry(pt, j))
    && (e.v ==> e.frame in refs)
    && refs' == if e.v then refs[e.frame := refs[e.frame] + 1] else refs
  }

  lemma ForkReady(pt: map<Key, Pte>, frames: map<nat, Data>, refs: map<nat, nat>, v: Space,
                  v0: Space, p: nat, np: nat, start: nat, n: nat, x: nat, a: Attr)
    requires Sound(pt, frames, refs, v) && ForkSoFar(v0, v, p, np, start, n, x, a) && x < n
    ensures var k, c := Key(p, start + x), Key(np, start + x);
      && k in v.maps && v.maps[k] == a && c !in v.maps && c !in v.ptes && k in v0.mem.kinds
      && k in v.ptes && Entry(pt, k) == v.ptes[k] && Entry(pt, c) == NONE && k != c && (Entry(pt, k).v ==>
          Entry(pt, k).frame in refs)
  {
    var k, c := Key(p, start + x), Key(np, start + x);
    assert k in v.maps && c !in v.maps;
  }

  lemma ForkDone(pt: map<Key, Pte>, frames: map<nat, Data>, refs: map<nat, nat>, v: Space, pt': map<Key, Pte>,
                 refs': map<nat, nat>, v0: Space, p: nat, np: nat, start: nat, n: nat, x: nat, a: Attr)
    returns (v': Space)
    requires Sound(pt, frames, refs, v) && ForkSoFar(v0, v, p, np, start, n, x, a) && x < n
    requires ForkedEntries(pt, pt', refs, refs', a, Key(p, start + x), Key(np, start + x))
    ensures Sound(pt', frames, refs', v') && ForkSoFar(v0, v', p, np, start, n, x + 1, a)
  {
    var k, c, s := Key(p, start + x), Key(np, start + x), State(v.maps, v.ptes, frames, refs);
    ForkReady(pt, frames, refs, v, v0, p, np, start, n, x, a);
    assert k in v.mem.kinds && c !in v.mem.kinds;
    ForkRefines(s, v.mem, k, c);
    ForkEffect(s, k, c);
    var t := ForkPage(s, k, c);
    v' := Space(t.maps, t.ptes, ForkMem(v.mem, k, c));
    ForkShows(v.ptes, t.ptes, pt, pt', a, k, c);
    assert Clean(v', np);
    ForkedOn(v0, v, v', p, np, start, n, x, a);
  }

  lemma ForkedOn(v0: Space, v: Space, v': Space, p: nat, np: nat, start: nat, n: nat, x: nat, a: Attr)
    requires ForkSoFar(v0, v, p, np, start, n, x, a) && x < n && Key(p, start + x) in v.mem.kinds
    requires Key(np, start + x) !in v.mem.kinds
    requires Clean(v', np)
    requires v'.maps == v.maps[Key(np, start + x) := a]
    requires v'.mem == ForkMem(v.mem, Key(p, start + x), Key(np, start + x))
    ensures ForkSoFar(v0, v', p, np, start, n, x + 1, a)
  {
    InheritsNext(v0.mem, v.mem, p, np, start + x);
    MoreNext(v0.maps, v.maps, np, start, x, a);
  }

  lemma ForkEffect(s: State, k: Key, c: Key)
    requires k in s.maps && k in s.ptes && (s.ptes[k].v ==> s.ptes[k].frame in s.refs)
    ensures var e := ForkParent(s.maps[k], s.ptes[k]);
      ForkPage(s, k, c) == State(s.maps[c := s.maps[k]], s.ptes[k := e][c := ForkChild(s.maps[k], e)], s.frames,
        if s.ptes[k].v then s.refs[s.ptes[k].frame := s.refs[s.ptes[k].frame] + 1] else s.refs)
  {
  }

  lemma ForkShows(ptes: map<Key, Pte>, ptes': map<Key, Pte>, pt: map<Key, Pte>, pt': map<Key, Pte>, a: Attr, k: Key,
                  c: Key)
    requires k in ptes && k != c
    requires ptes' == ptes[k := ForkParent(a, ptes[k])][c := ForkChild(a, ForkParent(a, ptes[k]))]
    requires Shows(pt, ptes) && forall j :: j != k && j != c ==> Entry(pt', j) == Entry(pt, j)
    requires Entry(pt', k) == ForkParent(a, ptes[k]) && Entry(pt', c) == ForkChild(a, ForkParent(a, ptes[k]))
    ensures Shows(pt', ptes')
  {
  }

  ghost predicate UnmappedEntry(pt: map<Key, Pte>, pt': map<Key, Pte>, frames: map<nat, Data>, frames': map<nat, Data>,
                                refs: map<nat, nat>, refs': map<nat, nat>, k: Key) {
    var e := Entry(pt, k);
    && Entry(pt', k) == (if e.v then NONE else e)
    && (forall j :: j != k ==> Entry(pt', j) == Entry(pt, j))
    && Released(e, frames, frames', refs, refs')
  }

  lemma UnmapReady(pt: map<Key, Pte>, frames: map<nat, Data>, refs: map<nat, nat>, v: Space, k: Key)
    requires Sound(pt, frames, refs, v) && k in v.maps && k in v.ptes
    ensures Entry(pt, k) == v.ptes[k] && (v.ptes[k].v ==> v.ptes[k].frame in refs)
  {
    assert Flagged(v.maps[k], v.ptes[k]);
  }

  lemma UnmapDone(pt: map<Key, Pte>, frames: map<nat, Data>, refs: map<nat, nat>, v: Space,
                  pt': map<Key, Pte>, frames': map<nat, Data>, refs': map<nat, nat>, k: Key)
    returns (v': Space)
    requires Sound(pt, frames, refs, v) && k in v.maps && k in v.ptes
    requires UnmappedEntry(pt, pt', frames, frames', refs, refs', k)
    ensures Sound(pt', frames', refs', v') && Dropped(v, v', k)
  {
    UnmapReady(pt, frames, refs, v, k);
    v' := Space(v.maps - {k}, v.ptes[k := LeftBehind(v.ptes[k])], v.mem.(kinds := v.mem.kinds - {k}));
    UnmapSimulates(State(v.maps, v.ptes, frames, refs), v.mem, k, frames', refs');
    UnmapShows(v.ptes, v'.ptes, pt, pt', k);
  }

  /** The counts and pages after the entry `e` is released. */
  ghost predicate Released(e: Pte, frames: map<nat, Data>, frames': map<nat, Data>, refs: map<nat, nat>, refs': map<nat,
                           nat>) {
    && (e.v ==> e.frame in refs)
    && refs' == (if !e.v then refs else if refs[e.frame] <= 1 then refs - {e.frame}
        else refs[e.frame := refs[e.frame] - 1])
    && frames' == (if e.v && refs[e.frame] <= 1 then frames - {e.frame} else frames)
  }

  lemma UnmapSimulates(s: State, m: Mem, k: Key, frames': map<nat, Data>, refs': map<nat, nat>)
    requires Simulates(s, m) && k in s.maps && Released(s.ptes[k], s.frames, frames', s.refs, refs')
    ensures Simulates(State(s.maps - {k}, s.ptes[k := LeftBehind(s.ptes[k])], frames', refs'),
      m.(kinds := m.kinds - {k}))
  {
    UnmapRefines(s, m, k);
    UnmapEffect(s, k, frames', refs');
  }

  lemma UnmapEffect(s: State, k: Key, frames': map<nat, Data>, refs': map<nat, nat>)
    requires k in s.ptes && Released(s.ptes[k], s.frames, frames', s.refs, refs')
    ensures UnmapPage(s, k) == State(s.maps - {k}, s.ptes[k := LeftBehind(s.ptes[k])], frames', refs')
  {
  }

  lemma UnmapShows(ptes: map<Key, Pte>, ptes': map<Key, Pte>, pt: map<Key, Pte>, pt': map<Key, Pte>, k: Key)
    requires k in ptes && ptes' == ptes[k := LeftBehind(ptes[k])]
    requires Shows(pt, ptes) && forall j :: j != k ==> Entry(pt', j) == Entry(pt, j)
    requires Entry(pt', k) == if ptes[k].v then NONE else ptes[k]
    ensures Shows(pt', ptes')
  {
  }
}
