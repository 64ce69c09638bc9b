/**
 * Lazily allocated, copy-on-write and shared mmap pages: page-table entries, their software
 * bits, physical pages and reference counts, as changed by mmap, fork, page faults, munmap and
 * exit (kernel/proc.c, kernel/sysproc.c, kernel/kalloc.c).  Base pages only.
 */
module Cow {
  import opened MemLayout
  import opened Zeros

  const NPROC := 64

  /** The bytes of a page. */
  datatype Data = Data(bytes: seq<nat>) {
    function Put(off: nat, x: nat): Data {
      if off < |bytes| then Data(bytes[off := x]) else this
    }
  }

  const ZEROS := Data(Fill(PGSIZE))

  /** A virtual page of a process. */
  datatype Key = Key(pid: nat, page: nat)

  /** What `mmap_list` records for a page: PROT_WRITE, and MAP_SHARED as against MAP_PRIVATE. */
  datatype Attr = Attr(writable: bool, shared: bool)

  /** A leaf entry: PTE_V, PTE_R, PTE_W, and the software bits 0x100 (private) and 0x200. */
  datatype Pte = Pte(frame: nat, v: bool, r: bool, w: bool, b8: bool, b9: bool)

  const NONE := Pte(0, false, false, false, false, false)

  /** `create_pte_flag` as a table of bits; PTE_U, always set, is left out. */
  function MakePte(frame: nat, m: Attr, notMapped: bool, cow: bool): Pte {
    Pte(frame, !notMapped, true, m.writable && !cow, !m.shared, notMapped || cow)
  }

  predicate IsPlaceholder(e: Pte) { !e.v && e.r && e.b9 && !e.b8 }

  predicate IsCow(e: Pte) { e.v && e.r && e.b8 && e.b9 }

  /** `ptes` also holds entries of pages that are not mapped any more. */
  datatype State = State(
    maps: map<Key, Attr>,
    ptes: map<Key, Pte>,
    frames: map<nat, Data>,    // allocated physical pages
    refs: map<nat, nat>)       // pa_referenced

  // ----- the memory the user is promised

  /** One page of a MAP_SHARED mapping, common to the process that made it and its descendants. */
  datatype Obj = Obj(id: nat, writable: bool)

  /** A page is the process's own memory, or a view of a shared object. */
  datatype Kind = Own | View(obj: Obj)

  /** Which kind each page is, the content of own pages and of objects, and the next free object name. */
  datatype Mem = Mem(kinds: map<Key, Kind>, own: map<Key, Data>, objs: map<Obj, Data>, next: nat)

  function Contents(m: Mem, k: Key): Data
    requires k in m.kinds
  {
    match m.kinds[k]
    case Own => if k in m.own then m.own[k] else ZEROS
    case View(o) => if o in m.objs then m.objs[o] else ZEROS
  }

  function Write(m: Mem, k: Key, d: Data): Mem
    requires k in m.kinds
  {
    match m.kinds[k]
    case Own => m.(own := m.own[k := d])
    case View(o) => m.(objs := m.objs[o := d])
  }

  // ----- simulation

  /** No page: never touched, or waiting for the first touch. */
  predicate Idle(e: Pte) { e == NONE || IsPlaceholder(e) }

  /** The bits of a mapped page; on a page that can only be read the software bits tell nothing. */
  ghost predicate Flagged(a: Attr, e: Pte) {
    || Idle(e)
    || (a.writable && e == MakePte(e.frame, a, false, false))
    || (a.writable && !a.shared && e == MakePte(e.frame, a, false, true))
    || (!a.writable && e.v && e.r && !e.w && !e.b9)
  }

  ghost predicate SameFrame(ptes: map<Key, Pte>, j: Key, k: Key) {
    j in ptes && k in ptes && ptes[j].v && ptes[k].v && ptes[j].frame == ptes[k].frame
  }

  ghost predicate SameObject(kinds: map<Key, Kind>, j: Key, k: Key) {
    j in kinds && k in kinds && kinds[j].View? && kinds[j] == kinds[k]
  }

  predicate KindOk(a: Attr, kind: Kind) {
    if a.shared then kind.View? && kind.obj.writable == a.writable else kind.Own?
  }

  /** Entries agree with `mmap_list` and with the kind of memory; elsewhere there is no page. */
  ghost predicate Typed(maps: map<Key, Attr>, ptes: map<Key, Pte>, kinds: map<Key, Kind>) {
    && maps.Keys == kinds.Keys && maps.Keys <= ptes.Keys
    && (forall k :: k in maps ==> Flagged(maps[k], ptes[k]) && KindOk(maps[k], kinds[k]))
    && (forall k :: k in ptes && k !in maps ==> Idle(ptes[k]))
  }

  /** Only mapped pages have entries, with the promised bytes; a page without one is still all zero. */
  ghost predicate Faithful(ptes: map<Key, Pte>, frames: map<nat, Data>, m: Mem) {
    && m.kinds.Keys <= ptes.Keys
    && (forall k :: k in ptes && ptes[k].v ==>
          k in m.kinds && ptes[k].frame in frames && frames[ptes[k].frame] == Contents(m, k))
    && (forall k :: k in m.kinds && !ptes[k].v ==> Contents(m, k) == ZEROS)
  }

  /** Two entries reach one physical page only at one address, and only as it is safe. */
  ghost predicate Exclusive(ptes: map<Key, Pte>, kinds: map<Key, Kind>) {
    forall j, k :: SameFrame(ptes, j, k) && j != k ==>
      j.page == k.page && (SameObject(kinds, j, k) || (!ptes[j].w && !ptes[k].w))
  }

  /** All views of a shared object have the same physical page, or are all still placeholders. */
  ghost predicate Joined(ptes: map<Key, Pte>, kinds: map<Key, Kind>) {
    forall j, k :: SameObject(kinds, j, k) && j != k && j in ptes && k in ptes ==>
      j.page == k.page && (SameFrame(ptes, j, k) || (IsPlaceholder(ptes[j]) && IsPlaceholder(ptes[k])))
  }

  function Mappers(ptes: map<Key, Pte>, f: nat): set<Key> {
    set k | k in ptes && ptes[k].v && ptes[k].frame == f
  }

  /** `pa_referenced` counts the valid entries; a page is allocated exactly while it has one. */
  ghost predicate Counted(ptes: map<Key, Pte>, frames: map<nat, Data>, refs: map<nat, nat>) {
    && refs.Keys == frames.Keys
    && (forall f :: f in refs ==> refs[f] == |Mappers(ptes, f)| && refs[f] > 0)
    && (forall k :: k in ptes && ptes[k].v ==> ptes[k].frame in refs)
  }

  ghost predicate Objects(m: Mem) {
    forall k :: k in m.kinds && m.kinds[k].View? ==> m.kinds[k].obj in m.objs && m.kinds[k].obj.id < m.next
  }

  ghost predicate Simulates(s: State, m: Mem) {
    match s
    case State(maps, ptes, frames, refs) =>
      && Typed(maps, ptes, m.kinds)
      && Faithful(ptes, frames, m)
      && Exclusive(ptes, m.kinds)
      && Joined(ptes, m.kinds)
      && Counted(ptes, frames, refs)
      && Objects(m)
  }

  // ----- physical pages

  /** `kalloc` of page `f`: zeroed, one reference. */
  function Kalloc(s: State, f: nat): State
  {
    s.(frames := s.frames[f := ZEROS], refs := s.refs[f := 1])
  }

  /** `kfree`: the page is released with its last reference. */
  function Kfree(s: State, f: nat): State
    requires f in s.refs
  {
    if s.refs[f] <= 1 then s.(frames := s.frames - {f}, refs := s.refs - {f})
    else s.(refs := s.refs[f := s.refs[f] - 1])
  }

  function IncrRef(s: State, f: nat): State
    requires f in s.refs
  {
    s.(refs := s.refs[f := s.refs[f] + 1])
  }

  // ----- user stores

  lemma FaithfulStore(ptes: map<Key, Pte>, frames: map<nat, Data>, m: Mem, k: Key, d: Data)
    requires Faithful(ptes, frames, m) && Exclusive(ptes, m.kinds) && Joined(ptes, m.kinds) && Objects(m)
    requires k in ptes && ptes[k].v && ptes[k].w
    ensures Faithful(ptes, frames[ptes[k].frame := d], Write(m, k, d))
  {
    var f, m' := ptes[k].frame, Write(m, k, d);
    forall j | j in m.kinds
      ensures ptes[j].v ==> ptes[j].frame in frames && frames[f := d][ptes[j].frame] == Contents(m', j)
      ensures !ptes[j].v ==> Contents(m', j) == ZEROS
    {
      if j != k && SameObject(m.kinds, j, k) { assert SameFrame(ptes, j, k); }
      if j != k && ptes[j].v && ptes[j].frame == f { assert SameFrame(ptes, j, k); }
    }
  }

  /** A store through a valid writable entry changes the promised memory and nothing else. */
  lemma StoreRefines(s: State, m: Mem, k: Key, off: nat, x: nat)
    requires Simulates(s, m) && k in s.ptes && s.ptes[k].v && s.ptes[k].w
    ensures s.ptes[k].frame in s.frames
    ensures var f := s.ptes[k].frame;
      Simulates(s.(frames := s.frames[f := s.frames[f].Put(off, x)]), Write(m, k, Contents(m, k).Put(off, x)))
  {
    FaithfulStore(s.ptes, s.frames, m, k, Contents(m, k).Put(off, x));
  }

  // ----- counting entries

  function Bit(b: bool): int { if b then 1 else 0 }

  predicate MapsTo(ptes: map<Key, Pte>, k: Key, f: nat) {
    k in ptes && ptes[k].v && ptes[k].frame == f
  }

  lemma Recount(ptes: map<Key, Pte>, k: Key, e: Pte, f: nat)
    ensures |Mappers(ptes[k := e], f)| == |Mappers(ptes, f)| - Bit(MapsTo(ptes, k, f)) + Bit(e.v && e.frame == f)
  {
    MappersPut(ptes, k, e, f);
    var s := Mappers(ptes, f);
    assert k in s <==> MapsTo(ptes, k, f);
    if k in s {
      assert s + {k} == s;
    } else {
      assert s - {k} == s;
    }
  }

  lemma MappersPut(ptes: map<Key, Pte>, k: Key, e: Pte, f: nat)
    ensures Mappers(ptes[k := e], f) ==
      if e.v && e.frame == f then Mappers(ptes, f) + {k} else Mappers(ptes, f) - {k}
  {
    var s, t := Mappers(ptes, f), Mappers(ptes[k := e], f);
    forall j ensures j in t <==> if j == k then e.v && e.frame == f else j in s {
    }
  }

  lemma Unmapped(ptes: map<Key, Pte>, frames: map<nat, Data>, refs: map<nat, nat>, f: nat)
    requires Counted(ptes, frames, refs) && f !in refs
    ensures Mappers(ptes, f) == {}
  {
  }

  /** A new entry for a page just obtained from `kalloc`. */
  lemma CountedNew(ptes: map<Key, Pte>, frames: map<nat, Data>, refs: map<nat, nat>, k: Key, e: Pte, d: Data)
    requires Counted(ptes, frames, refs) && e.v && e.frame !in refs && (k in ptes ==> !ptes[k].v)
    ensures Counted(ptes[k := e], frames[e.frame := d], refs[e.frame := 1])
  {
    Unmapped(ptes, frames, refs, e.frame);
    var refs' := refs[e.frame := 1];
    forall f | f in refs' ensures refs'[f] == |Mappers(ptes[k := e], f)| {
      Recount(ptes, k, e, f);
    }
  }

  /** One more entry for a page that is already mapped (`incr_pa_ref`). */
  lemma CountedAdd(ptes: map<Key, Pte>, frames: map<nat, Data>, refs: map<nat, nat>, k: Key, e: Pte)
    requires Counted(ptes, frames, refs) && e.v && e.frame in refs && (k in ptes ==> !ptes[k].v)
    ensures Counted(ptes[k := e], frames, refs[e.frame := refs[e.frame] + 1])
  {
    var refs' := refs[e.frame := refs[e.frame] + 1];
    forall f | f in refs' ensures refs'[f] == |Mappers(ptes[k := e], f)| {
      Recount(ptes, k, e, f);
    }
  }

  /** Other bits of an entry change, or an entry without a page changes. */
  lemma CountedSame(ptes: map<Key, Pte>, frames: map<nat, Data>, refs: map<nat, nat>, k: Key, e: Pte)
    requires Counted(ptes, frames, refs)
    requires if k in ptes && ptes[k].v then e.v && e.frame == ptes[k].frame else !e.v
    ensures Counted(ptes[k := e], frames, refs)
  {
    forall f | f in refs ensures refs[f] == |Mappers(ptes[k := e], f)| {
      Recount(ptes, k, e, f);
    }
  }

  /** An entry goes and `kfree` is called: the page goes with its last entry. */
  lemma CountedDrop(s: State, k: Key)
    requires Counted(s.ptes, s.frames, s.refs) && k in s.ptes && s.ptes[k].v
    ensures s.ptes[k].frame in s.refs
    ensures var t := Kfree(s, s.ptes[k].frame); Counted(s.ptes[k := NONE], t.frames, t.refs)
  {
    var t, ptes := Kfree(s, s.ptes[k].frame), s.ptes[k := NONE];
    forall f | f in s.refs ensures |Mappers(ptes, f)| == s.refs[f] - Bit(f == s.ptes[k].frame) {
      Recount(s.ptes, k, NONE, f);
    }
    forall j | j in ptes && ptes[j].v ensures ptes[j].frame in t.refs {
      if ptes[j].frame == s.ptes[k].frame {
        assert j in Mappers(ptes, ptes[j].frame);
        assert |Mappers(ptes, ptes[j].frame)| > 0;
      }
    }
  }

  // ----- page faults

  /** First touch of a page that no entry describes. */
  function FaultFresh(s: State, k: Key, f: nat): State
    requires k in s.maps
  {
    var t := Kalloc(s, f);
    t.(ptes := s.ptes[k := MakePte(f, s.maps[k], false, false)])
  }

  /** A store to a copy-on-write page: copy it, drop the old page, map the copy writable. */
  function FaultCow(s: State, k: Key, f: nat): State
    requires k in s.maps && k in s.ptes && s.ptes[k].frame in s.frames && s.ptes[k].frame in s.refs && f !in s.refs
  {
    var t := Kalloc(s, f);
    var u := Kfree(t.(frames := t.frames[f := s.frames[s.ptes[k].frame]]), s.ptes[k].frame);
    u.(ptes := s.ptes[k := MakePte(f, s.maps[k], false, false)])
  }

  /** First touch of a shared page after fork: every placeholder at this address gets the page. */
  function FaultShared(s: State, k: Key, f: nat): State
    requires k in s.maps
  {
    var e := MakePte(f, s.maps[k], false, false);
    State(s.maps, Connect(s.ptes, k.page, e), s.frames[f := ZEROS], s.refs[f := |Waiting(s.ptes, k.page)|])
  }

  function Waiting(ptes: map<Key, Pte>, page: nat): set<Key> {
    set j | j in ptes && j.page == page && IsPlaceholder(ptes[j])
  }

  function Connect(ptes: map<Key, Pte>, page: nat, e: Pte): map<Key, Pte> {
    map j | j in ptes :: if j.page == page && IsPlaceholder(ptes[j]) then e else ptes[j]
  }

  datatype Outcome = Killed | Done(s: State)

  /** `pagefault` for the page `k`; `f` is the page `kalloc` would return. */
  function Pagefault(s: State, k: Key, store: bool, f: nat): Outcome
    requires s.maps.Keys <= s.ptes.Keys && f !in s.refs
    requires k in s.ptes && s.ptes[k].v ==> s.ptes[k].frame in s.frames && s.ptes[k].frame in s.refs
  {
    if k !in s.maps then Killed
    else if s.ptes[k].v then
      if store && !s.ptes[k].w then
        if IsCow(s.ptes[k]) then Done(FaultCow(s, k, f)) else Killed
      else Done(s)
    else if IsPlaceholder(s.ptes[k]) then Done(FaultShared(s, k, f))
    else Done(FaultFresh(s, k, f))
  }

  lemma FreshExclusive(ptes: map<Key, Pte>, kinds: map<Key, Kind>, frames: map<nat, Data>, refs: map<nat, nat>, k: Key,
                       e: Pte)
    requires Exclusive(ptes, kinds) && Counted(ptes, frames, refs) && k in ptes && e.v && e.frame !in refs
    ensures Exclusive(ptes[k := e], kinds)
  {
    var ptes' := ptes[k := e];
    forall i, j | SameFrame(ptes', i, j) && i != j ensures SameFrame(ptes, i, j) && i != k && j != k {
      assert i == k || j == k || SameFrame(ptes, i, j);
    }
  }

  lemma TypedPut(maps: map<Key, Attr>, ptes: map<Key, Pte>, kinds: map<Key, Kind>, k: Key, e: Pte)
    requires Typed(maps, ptes, kinds) && k in maps && Flagged(maps[k], e)
    ensures Typed(maps, ptes[k := e], kinds)
  {
  }

  lemma FreshJoined(ptes: map<Key, Pte>, kinds: map<Key, Kind>, k: Key, e: Pte)
    requires Joined(ptes, kinds) && k in ptes && ptes[k] == NONE
    ensures Joined(ptes[k := e], kinds)
  {
    forall i, j | SameObject(kinds, i, j) && i != j && i in ptes && j in ptes ensures i != k && j != k {
      assert !SameFrame(ptes, i, j) || (i != k && j != k);
    }
  }

  lemma FreshRefines(s: State, m: Mem, k: Key, f: nat)
    requires Simulates(s, m) && k in s.maps && s.ptes[k] == NONE && f !in s.refs
    ensures Simulates(FaultFresh(s, k, f), m)
  {
    var e := MakePte(f, s.maps[k], false, false);
    FreshExclusive(s.ptes, m.kinds, s.frames, s.refs, k, e);
    CountedNew(s.ptes, s.frames, s.refs, k, e, ZEROS);
    FreshJoined(s.ptes, m.kinds, k, e);
    TypedPut(s.maps, s.ptes, m.kinds, k, e);
    FaithfulMove(s.ptes, s.frames, s.frames[f := ZEROS], s.refs[f := 1], m, k, e);
  }

  /** Entry `k` moves to a page with the same content; every other entry keeps its page. */
  lemma FaithfulMove(ptes: map<Key, Pte>, frames: map<nat, Data>, frames': map<nat, Data>, refs': map<nat, nat>, m: Mem,
                     k: Key, e: Pte)
    requires Faithful(ptes, frames, m) && k in ptes && k in m.kinds && e.v && e.frame !in frames
    requires Counted(ptes[k := e], frames', refs')
    requires e.frame in frames' && frames'[e.frame] == Contents(m, k)
    requires forall x :: x in frames' && x != e.frame ==> x in frames && frames'[x] == frames[x]
    ensures Faithful(ptes[k := e], frames', m)
  {
    var ptes' := ptes[k := e];
    forall j | j in ptes' && ptes'[j].v
      ensures j in m.kinds && ptes'[j].frame in frames' && frames'[ptes'[j].frame] == Contents(m, j)
    {
      if j != k {
        OtherMoved(ptes, frames, frames', m, j, e);
      }
    }
    forall j | j in m.kinds && !ptes'[j].v ensures Contents(m, j) == ZEROS {
      assert ptes'[j] == ptes[j];
    }
  }

  lemma OtherMoved(ptes: map<Key, Pte>, frames: map<nat, Data>, frames': map<nat, Data>, m: Mem, j: Key, e: Pte)
    requires Faithful(ptes, frames, m) && j in ptes && ptes[j].v && e.frame !in frames && ptes[j].frame in frames'
    requires forall x :: x in frames' && x != e.frame ==> x in frames && frames'[x] == frames[x]
    ensures j in m.kinds && frames'[ptes[j].frame] == Contents(m, j)
  {
  }

  /** The order of `kalloc` and `kfree` does not show in the result. */
  lemma CowOrder(s: State, k: Key, f: nat)
    requires k in s.maps && k in s.ptes && s.ptes[k].frame in s.frames && s.ptes[k].frame in s.refs && f !in s.refs
    ensures var t := Kfree(s, s.ptes[k].frame);
      FaultCow(s, k, f) == State(s.maps, s.ptes[k := MakePte(f, s.maps[k], false, false)],
        t.frames[f := s.frames[s.ptes[k].frame]], t.refs[f := 1])
  {
    var o: nat := s.ptes[k].frame;
    var d := s.frames[o];
    assert s.frames[f := ZEROS][f := d] == s.frames[f := d];
    if s.refs[o] <= 1 {
      assert s.frames[f := d] - {o} == (s.frames - {o})[f := d];
      assert s.refs[f := 1] - {o} == (s.refs - {o})[f := 1];
    }
  }

  lemma CowCounted(s: State, k: Key, f: nat)
    requires Counted(s.ptes, s.frames, s.refs) && k in s.maps && k in s.ptes && s.ptes[k].v && f !in s.refs
    ensures s.ptes[k].frame in s.frames && s.ptes[k].frame in s.refs
    ensures var t, e := Kfree(s, s.ptes[k].frame), MakePte(f, s.maps[k], false, false);
      Counted(s.ptes[k := e], t.frames[f := s.frames[s.ptes[k].frame]], t.refs[f := 1])
  {
    var e, old_ := MakePte(f, s.maps[k], false, false), s.ptes[k].frame;
    CountedDrop(s, k);
    var t := Kfree(s, old_);
    CountedNew(s.ptes[k := NONE], t.frames, t.refs, k, e, s.frames[old_]);
    assert s.ptes[k := NONE][k := e] == s.ptes[k := e];
  }

  lemma OwnNotJoined(ptes: map<Key, Pte>, kinds: map<Key, Kind>, k: Key, e: Pte)
    requires Joined(ptes, kinds) && k in kinds && kinds[k].Own?
    ensures Joined(ptes[k := e], kinds)
  {
    forall i, j | SameObject(kinds, i, j) ensures i != k && j != k {
    }
  }

  lemma CowIsOwn(maps: map<Key, Attr>, ptes: map<Key, Pte>, kinds: map<Key, Kind>, k: Key)
    requires Typed(maps, ptes, kinds) && k in maps && IsCow(ptes[k])
    ensures kinds[k].Own? && maps[k] == Attr(true, false)
  {
    assert Flagged(maps[k], ptes[k]) && KindOk(maps[k], kinds[k]);
  }

  lemma CowRefines(s: State, m: Mem, k: Key, f: nat)
    requires Simulates(s, m) && k in s.maps && IsCow(s.ptes[k]) && f !in s.refs
    ensures s.ptes[k].frame in s.frames && s.ptes[k].frame in s.refs
    ensures Simulates(FaultCow(s, k, f), m)
  {
    var e := MakePte(f, s.maps[k], false, false);
    CowIsOwn(s.maps, s.ptes, m.kinds, k);
    CowCounted(s, k, f);
    CowOrder(s, k, f);
    var t, d := Kfree(s, s.ptes[k].frame), s.frames[s.ptes[k].frame];
    FreshExclusive(s.ptes, m.kinds, s.frames, s.refs, k, e);
    FaithfulMove(s.ptes, s.frames, t.frames[f := d], t.refs[f := 1], m, k, e);
    OwnNotJoined(s.ptes, m.kinds, k, e);
    TypedPut(s.maps, s.ptes, m.kinds, k, e);
  }

  // ----- first touch of a shared page after fork

  /** Pages `j` and `k` may be given one physical page: the same memory, or memory that is only read. */
  ghost predicate MayShare(maps: map<Key, Attr>, kinds: map<Key, Kind>, j: Key, k: Key) {
    j in maps && k in maps && (j == k || SameObject(kinds, j, k) || (!maps[j].writable && !maps[k].writable))
  }

  /** Every entry still waiting at this address is of a mapped page that may share the page of `k`. */
  ghost predicate Harmless(maps: map<Key, Attr>, ptes: map<Key, Pte>, kinds: map<Key, Kind>, k: Key) {
    forall j :: j in Waiting(ptes, k.page) ==> MayShare(maps, kinds, j, k)
  }

  lemma ConnectTyped(s: State, m: Mem, k: Key, f: nat)
    requires Typed(s.maps, s.ptes, m.kinds) && k in s.maps && Harmless(s.maps, s.ptes, m.kinds, k)
    ensures Typed(s.maps, FaultShared(s, k, f).ptes, m.kinds)
  {
    var ptes := FaultShared(s, k, f).ptes;
    forall j | j in s.maps ensures Flagged(s.maps[j], ptes[j]) {
      if j in Waiting(s.ptes, k.page) {
        assert MayShare(s.maps, m.kinds, j, k);
        assert KindOk(s.maps[j], m.kinds[j]) && KindOk(s.maps[k], m.kinds[k]);
      }
    }
    forall j | j in ptes && j !in s.maps ensures Idle(ptes[j]) {
      assert !MayShare(s.maps, m.kinds, j, k);
    }
  }

  lemma ConnectExclusive(s: State, m: Mem, k: Key, f: nat)
    requires Typed(s.maps, s.ptes, m.kinds) && k in s.maps && Harmless(s.maps, s.ptes, m.kinds, k)
    requires Exclusive(s.ptes, m.kinds) && Counted(s.ptes, s.frames, s.refs) && f !in s.refs
    ensures Exclusive(FaultShared(s, k, f).ptes, m.kinds)
  {
    var ptes := FaultShared(s, k, f).ptes;
    forall i, j | SameFrame(ptes, i, j) && i != j
      ensures SameFrame(s.ptes, i, j) || (i in Waiting(s.ptes, k.page) && j in Waiting(s.ptes, k.page)
        && MayShare(s.maps, m.kinds, i, k) && MayShare(s.maps, m.kinds, j, k))
    {
    }
  }

  lemma ConnectJoined(s: State, m: Mem, k: Key, f: nat)
    requires Joined(s.ptes, m.kinds) && k in s.maps
    ensures Joined(FaultShared(s, k, f).ptes, m.kinds)
  {
    var ptes := FaultShared(s, k, f).ptes;
    forall i, j | SameObject(m.kinds, i, j) && i != j && i in ptes && j in ptes
      ensures i.page == j.page && (SameFrame(ptes, i, j) || (IsPlaceholder(ptes[i]) && IsPlaceholder(ptes[j])))
    {
      assert SameFrame(s.ptes, i, j) || (IsPlaceholder(s.ptes[i]) && IsPlaceholder(s.ptes[j]));
    }
  }

  lemma ConnectCounted(s: State, k: Key, f: nat)
    requires Counted(s.ptes, s.frames, s.refs) && k in s.maps && k in s.ptes && IsPlaceholder(s.ptes[k]) && f !in s.refs
    ensures var t := FaultShared(s, k, f); Counted(t.ptes, t.frames, t.refs)
  {
    var t := FaultShared(s, k, f);
    Unmapped(s.ptes, s.frames, s.refs, f);
    assert Mappers(t.ptes, f) == Waiting(s.ptes, k.page);
    assert k in Waiting(s.ptes, k.page);
    forall g | g in s.refs ensures Mappers(t.ptes, g) == Mappers(s.ptes, g) {
    }
  }

  lemma SharedRefines(s: State, m: Mem, k: Key, f: nat)
    requires Simulates(s, m) && k in s.maps && IsPlaceholder(s.ptes[k]) && f !in s.refs
    requires Harmless(s.maps, s.ptes, m.kinds, k)
    ensures Simulates(FaultShared(s, k, f), m)
  {
    ConnectTyped(s, m, k, f);
    ConnectExclusive(s, m, k, f);
    ConnectJoined(s, m, k, f);
    ConnectCounted(s, k, f);
    ConnectFaithful(s, m, k, f);
  }

  lemma ConnectFaithful(s: State, m: Mem, k: Key, f: nat)
    requires Faithful(s.ptes, s.frames, m) && k in s.maps && f !in s.frames
    requires forall j :: j in Waiting(s.ptes, k.page) ==> j in m.kinds
    ensures Faithful(FaultShared(s, k, f).ptes, s.frames[f := ZEROS], m)
  {
    var t := FaultShared(s, k, f);
    forall j | j in t.ptes
      ensures t.ptes[j].v ==> j in m.kinds && t.ptes[j].frame in t.frames && t.frames[t.ptes[j].frame] == Contents(m, j)
      ensures j in m.kinds && !t.ptes[j].v ==> Contents(m, j) == ZEROS
    {
      assert t.ptes[j] == if j in Waiting(s.ptes, k.page) then MakePte(f, s.maps[k], false, false) else s.ptes[j];
    }
  }

  // ----- fork, one page at a time

  /** The parent's entry after fork. */
  function ForkParent(a: Attr, e: Pte): Pte {
    if a.shared then if e.v then e else MakePte(0, a, true, false)
    else if e.v && a.writable then MakePte(e.frame, a, false, true)
    else e
  }

  /** The child's entry, the parent's new one being `e`. */
  function ForkChild(a: Attr, e: Pte): Pte {
    if a.shared || e.v then e else NONE
  }

  /** One turn of the mmap loops of `fork`: page `k` of the parent, page `c` of the child. */
  function ForkPage(s: State, k: Key, c: Key): State
    requires k in s.maps && k in s.ptes && (s.ptes[k].v ==> s.ptes[k].frame in s.refs)
  {
    var a := s.maps[k];
    var e := ForkParent(a, s.ptes[k]);
    var t := if s.ptes[k].v then IncrRef(s, e.frame) else s;
    t.(maps := s.maps[c := a], ptes := s.ptes[k := e][c := ForkChild(a, e)])
  }

  /** The child gets a copy of a private page and a view of a shared one. */
  function ForkMem(m: Mem, k: Key, c: Key): Mem
    requires k in m.kinds
  {
    var m' := m.(kinds := m.kinds[c := m.kinds[k]]);
    if m.kinds[k].Own? then m'.(own := m.own[c := Contents(m, k)]) else m'
  }

  /** What the two entries made by fork have in common with the old one. */
  ghost predicate ForkBits(a: Attr, e: Pte, e1: Pte, e2: Pte) {
    && Flagged(a, e1) && Flagged(a, e2)
    && e1.v == e2.v == e.v && (e.v ==> e1.frame == e.frame && e2 == e1)
    && (e1.v && e1.w ==> e.w) && (IsPlaceholder(e) ==> IsPlaceholder(e1))
    && (a.shared ==> e2 == e1 && (e1.v || IsPlaceholder(e1)))
    && (!a.shared && e1.v ==> !e1.w)
    && (e == NONE || IsPlaceholder(e) || e.v)
  }

  lemma ForkBitsHold(a: Attr, e: Pte)
    requires Flagged(a, e)
    ensures ForkBits(a, e, ForkParent(a, e), ForkChild(a, ForkParent(a, e)))
  {
  }

  /** Marking the parent's entry leaves the promise as it was. */
  lemma ForkMarks(s: State, m: Mem, k: Key, e1: Pte, e2: Pte)
    requires Simulates(s, m) && k in s.maps && ForkBits(s.maps[k], s.ptes[k], e1, e2)
    ensures Simulates(s.(ptes := s.ptes[k := e1]), m)
  {
    TypedPut(s.maps, s.ptes, m.kinds, k, e1);
    CountedSame(s.ptes, s.frames, s.refs, k, e1);
    MarkExclusive(s.ptes, m.kinds, k, e1);
    if s.ptes[k] == NONE { FreshJoined(s.ptes, m.kinds, k, e1); } else { MarkJoined(s.ptes, m.kinds, k, e1); }
    MarkFaithful(s.ptes, s.frames, m, k, e1);
  }

  lemma MarkExclusive(ptes: map<Key, Pte>, kinds: map<Key, Kind>, k: Key, e: Pte)
    requires Exclusive(ptes, kinds) && k in ptes && e.v == ptes[k].v && (e.v ==> e.frame == ptes[k].frame)
    requires e.v && e.w ==> ptes[k].w
    ensures Exclusive(ptes[k := e], kinds)
  {
    var ptes' := ptes[k := e];
    forall i, j | SameFrame(ptes', i, j) ensures SameFrame(ptes, i, j) {
    }
  }

  lemma MarkJoined(ptes: map<Key, Pte>, kinds: map<Key, Kind>, k: Key, e: Pte)
    requires Joined(ptes, kinds) && k in ptes && e.v == ptes[k].v && (e.v ==> e.frame == ptes[k].frame)
    requires IsPlaceholder(ptes[k]) ==> IsPlaceholder(e)
    ensures Joined(ptes[k := e], kinds)
  {
    var ptes' := ptes[k := e];
    forall i, j | SameFrame(ptes, i, j) ensures SameFrame(ptes', i, j) {
    }
  }

  lemma MarkFaithful(ptes: map<Key, Pte>, frames: map<nat, Data>, m: Mem, k: Key, e: Pte)
    requires Faithful(ptes, frames, m) && k in ptes && e.v == ptes[k].v && (e.v ==> e.frame == ptes[k].frame)
    ensures Faithful(ptes[k := e], frames, m)
  {
  }

  /** The child's entry sits beside the parent's: same page if any, nothing writable in private. */
  lemma ChildExclusive(ptes: map<Key, Pte>, kinds: map<Key, Kind>, k: Key, c: Key, e: Pte)
    requires Exclusive(ptes, kinds) && k in ptes && k in kinds && c !in ptes && c.page == k.page
    requires e.v ==> e == ptes[k]
    requires kinds[k].Own? ==> !ptes[k].v || !ptes[k].w
    ensures Exclusive(ptes[c := e], kinds[c := kinds[k]])
  {
    var ptes', kinds' := ptes[c := e], kinds[c := kinds[k]];
    forall i, j | SameFrame(ptes', i, j) && i != j
      ensures i.page == j.page && (SameObject(kinds', i, j) || (!ptes'[i].w && !ptes'[j].w))
    {
      var x, y := if i == c then k else i, if j == c then k else j;
      assert x == y || SameFrame(ptes, x, y);
    }
  }

  lemma ChildJoined(ptes: map<Key, Pte>, kinds: map<Key, Kind>, k: Key, c: Key, e: Pte)
    requires Joined(ptes, kinds) && kinds.Keys <= ptes.Keys && k in kinds && c !in ptes && c.page == k.page
    requires kinds[k].View? ==> e == ptes[k] && (e.v || IsPlaceholder(e))
    ensures Joined(ptes[c := e], kinds[c := kinds[k]])
  {
    var ptes', kinds' := ptes[c := e], kinds[c := kinds[k]];
    forall i, j | SameObject(kinds', i, j) && i != j && i in ptes' && j in ptes'
      ensures i.page == j.page && (SameFrame(ptes', i, j) || (IsPlaceholder(ptes'[i]) && IsPlaceholder(ptes'[j])))
    {
      var x, y := if i == c then k else i, if j == c then k else j;
      assert SameObject(kinds, x, y);
      assert x == y || SameFrame(ptes, x, y) || (IsPlaceholder(ptes[x]) && IsPlaceholder(ptes[y]));
    }
  }

  lemma ChildFaithful(ptes: map<Key, Pte>, frames: map<nat, Data>, m: Mem, k: Key, c: Key, e: Pte)
    requires Faithful(ptes, frames, m) && k in m.kinds && c !in ptes
    requires e.v == ptes[k].v && (e.v ==> e == ptes[k])
    ensures Faithful(ptes[c := e], frames, ForkMem(m, k, c))
  {
    ForkContents(m, k, c);
  }

  /** Afterwards parent and child read the same, and no other page has changed. */
  lemma ForkContents(m: Mem, k: Key, c: Key)
    requires k in m.kinds && c !in m.kinds
    ensures Contents(ForkMem(m, k, c), c) == Contents(m, k)
    ensures forall j :: j in m.kinds ==> Contents(ForkMem(m, k, c), j) == Contents(m, j)
  {
  }

  /** The child's entry beside the marked one of the parent. */
  lemma ForkAdds(s: State, m: Mem, k: Key, c: Key, e: Pte)
    requires Simulates(s, m) && k in s.maps && c !in s.ptes && c.page == k.page
    requires Flagged(s.maps[k], e) && e.v == s.ptes[k].v && (e.v ==> e == s.ptes[k])
    requires s.maps[k].shared ==> e == s.ptes[k] && (e.v || IsPlaceholder(e))
    requires !s.maps[k].shared && e.v ==> !e.w
    ensures s.ptes[k].v ==> e.frame in s.refs
    ensures var t := if s.ptes[k].v then IncrRef(s, e.frame) else s;
      Simulates(t.(maps := s.maps[c := s.maps[k]], ptes := s.ptes[c := e]), ForkMem(m, k, c))
  {
    ChildSimulates(s, m, k, c, e);
    var maps, ptes := s.maps[c := s.maps[k]], s.ptes[c := e];
    if s.ptes[k].v {
      CountedAdd(s.ptes, s.frames, s.refs, c, e);
      var refs := s.refs[e.frame := s.refs[e.frame] + 1];
      assert Simulates(State(maps, ptes, s.frames, refs), ForkMem(m, k, c));
    } else {
      CountedSame(s.ptes, s.frames, s.refs, c, e);
      assert Simulates(State(maps, ptes, s.frames, s.refs), ForkMem(m, k, c));
    }
  }

  lemma ChildSimulates(s: State, m: Mem, k: Key, c: Key, e: Pte)
    requires Simulates(s, m) && k in s.maps && c !in s.ptes && c.page == k.page
    requires Flagged(s.maps[k], e) && e.v == s.ptes[k].v && (e.v ==> e == s.ptes[k])
    requires s.maps[k].shared ==> e == s.ptes[k] && (e.v || IsPlaceholder(e))
    requires !s.maps[k].shared && e.v ==> !e.w
    ensures var ptes, m' := s.ptes[c := e], ForkMem(m, k, c);
      && Typed(s.maps[c := s.maps[k]], ptes, m'.kinds) && Faithful(ptes, s.frames, m')
      && Exclusive(ptes, m'.kinds) && Joined(ptes, m'.kinds) && Objects(m')
  {
    assert KindOk(s.maps[k], m.kinds[k]);
    ChildExclusive(s.ptes, m.kinds, k, c, e);
    ChildJoined(s.ptes, m.kinds, k, c, e);
    ChildFaithful(s.ptes, s.frames, m, k, c, e);
    TypedAdd(s.maps, s.ptes, m.kinds, c, s.maps[k], e, m.kinds[k]);
  }

  /** Fork gives the child an independent copy of a private page and the same shared page. */
  lemma ForkRefines(s: State, m: Mem, k: Key, c: Key)
    requires Simulates(s, m) && k in s.maps && c !in s.ptes && c.page == k.page
    ensures s.ptes[k].v ==> s.ptes[k].frame in s.refs
    ensures Simulates(ForkPage(s, k, c), ForkMem(m, k, c))
  {
    var a := s.maps[k];
    var e1 := ForkParent(a, s.ptes[k]);
    var e2 := ForkChild(a, e1);
    ForkBitsHold(a, s.ptes[k]);
    ForkMarks(s, m, k, e1, e2);
    var s1 := s.(ptes := s.ptes[k := e1]);
    ForkAdds(s1, m, k, c, e2);
    var t := if s.ptes[k].v then IncrRef(s1, e1.frame) else s1;
    assert ForkPage(s, k, c) == t.(maps := s.maps[c := a], ptes := s1.ptes[c := e2]);
  }

  lemma TypedAdd(maps: map<Key, Attr>, ptes: map<Key, Pte>, kinds: map<Key, Kind>, c: Key, a: Attr, e: Pte, kind: Kind)
    requires Typed(maps, ptes, kinds) && c !in maps && Flagged(a, e) && KindOk(a, kind)
    ensures Typed(maps[c := a], ptes[c := e], kinds[c := kind])
  {
  }

  // ----- munmap, exit, mmap

  /** What the release loops leave in an entry: valid ones are cleared, others are skipped. */
  function LeftBehind(e: Pte): Pte { if e.v then NONE else e }

  /** One turn of the release loops of `sys_munmap` and `proc_freepagetable`. */
  function UnmapPage(s: State, k: Key): State
    requires k in s.ptes && (s.ptes[k].v ==> s.ptes[k].frame in s.refs)
  {
    var t := if s.ptes[k].v then Kfree(s, s.ptes[k].frame) else s;
    t.(maps := s.maps - {k}, ptes := s.ptes[k := LeftBehind(s.ptes[k])])
  }

  /** Entries of the listed pages are gone or without a page, and the others as they were. */
  ghost predicate LessOf(ptes: map<Key, Pte>, ptes': map<Key, Pte>, gone: set<Key>) {
    forall k :: k in ptes' ==> if k in gone then Idle(ptes'[k]) else k in ptes && ptes'[k] == ptes[k]
  }

  lemma DropFaithful(ptes: map<Key, Pte>, frames: map<nat, Data>, ptes': map<Key, Pte>, frames': map<nat, Data>,
                     m: Mem, gone: set<Key>)
    requires Faithful(ptes, frames, m) && (m.kinds - gone).Keys <= ptes'.Keys
    requires LessOf(ptes, ptes', gone) && forall k :: k in ptes' && ptes'[k].v ==> ptes'[k].frame in frames'
    requires forall f :: f in frames' ==> f in frames && frames'[f] == frames[f]
    ensures Faithful(ptes', frames', m.(kinds := m.kinds - gone))
  {
    var m' := m.(kinds := m.kinds - gone);
    assert forall j :: j in m'.kinds ==> Contents(m', j) == Contents(m, j);
  }

  lemma DropPairs(ptes: map<Key, Pte>, kinds: map<Key, Kind>, ptes': map<Key, Pte>, gone: set<Key>)
    requires Exclusive(ptes, kinds) && Joined(ptes, kinds) && kinds.Keys <= ptes.Keys
    requires LessOf(ptes, ptes', gone) && forall k :: k in ptes && ptes[k].v ==> k in kinds
    ensures Exclusive(ptes', kinds - gone) && Joined(ptes', kinds - gone)
  {
    var kinds' := kinds - gone;
    forall i, j | SameFrame(ptes', i, j) ensures SameFrame(ptes, i, j) && i in kinds' && j in kinds' {
    }
    forall i, j | SameObject(kinds', i, j) ensures SameObject(kinds, i, j) {
    }
    assert forall i, j :: i in kinds' && j in kinds' && SameObject(kinds, i, j) ==> SameObject(kinds', i, j);
    assert forall i, j :: i in ptes' && j in ptes' && i !in gone && j !in gone && SameFrame(ptes, i, j) ==>
      SameFrame(ptes', i, j);
  }

  lemma DropTyped(maps: map<Key, Attr>, ptes: map<Key, Pte>, kinds: map<Key, Kind>,
                  maps': map<Key, Attr>, ptes': map<Key, Pte>, gone: set<Key>)
    requires Typed(maps, ptes, kinds)
    requires forall k :: k in maps' <==> k in maps && k !in gone
    requires forall k :: k in maps' ==> maps'[k] == maps[k] && k in ptes'
    requires LessOf(ptes, ptes', gone)
    ensures Typed(maps', ptes', kinds - gone)
  {
  }

  /** Entries and pages go together, and the rest of the promise stands. */
  lemma DropRefines(s: State, m: Mem, t: State, gone: set<Key>)
    requires Simulates(s, m) && Counted(t.ptes, t.frames, t.refs)
    requires forall k :: k in t.maps <==> k in s.maps && k !in gone
    requires forall k :: k in t.maps ==> t.maps[k] == s.maps[k] && k in t.ptes
    requires LessOf(s.ptes, t.ptes, gone)
    requires forall f :: f in t.frames ==> f in s.frames && t.frames[f] == s.frames[f]
    ensures Simulates(t, m.(kinds := m.kinds - gone))
  {
    DropTyped(s.maps, s.ptes, m.kinds, t.maps, t.ptes, gone);
    DropPairs(s.ptes, m.kinds, t.ptes, gone);
    DropFaithful(s.ptes, s.frames, t.ptes, t.frames, m, gone);
  }

  lemma UnmapCounted(s: State, k: Key)
    requires Counted(s.ptes, s.frames, s.refs) && k in s.ptes
    ensures s.ptes[k].v ==> s.ptes[k].frame in s.refs
    ensures var t := UnmapPage(s, k); Counted(t.ptes, t.frames, t.refs)
  {
    if s.ptes[k].v {
      CountedDrop(s, k);
    } else {
      assert s.ptes[k := s.ptes[k]] == s.ptes;
    }
  }

  /** Releasing a page takes that page away and changes what no one else reads. */
  lemma UnmapRefines(s: State, m: Mem, k: Key)
    requires Simulates(s, m) && k in s.maps
    ensures s.ptes[k].v ==> s.ptes[k].frame in s.refs
    ensures Simulates(UnmapPage(s, k), m.(kinds := m.kinds - {k}))
  {
    UnmapCounted(s, k);
    assert Flagged(s.maps[k], s.ptes[k]);
    DropRefines(s, m, UnmapPage(s, k), {k});
  }

  /** The entries of the other processes. */
  function OthersOf<T>(m: map<Key, T>, pid: nat): map<Key, T> {
    map k | k in m && k.pid != pid :: m[k]
  }

  /** `proc_freepagetable`: all entries of the process go, and with them the pages only it has. */
  function ExitProc(s: State, pid: nat): State {
    var ptes := OthersOf(s.ptes, pid);
    State(OthersOf(s.maps, pid), ptes,
          map f | f in s.frames && Mappers(ptes, f) != {} :: s.frames[f],
          map f | f in s.refs && Mappers(ptes, f) != {} :: |Mappers(ptes, f)|)
  }

  ghost function KeysOf(kinds: map<Key, Kind>, pid: nat): set<Key> {
    set k | k in kinds && k.pid == pid
  }

  /** Exit takes the pages of one process away and changes what no one else reads. */
  lemma ExitRefines(s: State, m: Mem, pid: nat)
    requires Simulates(s, m)
    ensures Simulates(ExitProc(s, pid), m.(kinds := m.kinds - KeysOf(m.kinds, pid)))
  {
    ExitCounted(s, pid);
    DropRefines(s, m, ExitProc(s, pid), KeysOf(m.kinds, pid));
  }

  lemma ExitCounted(s: State, pid: nat)
    requires Counted(s.ptes, s.frames, s.refs)
    ensures var t := ExitProc(s, pid); Counted(t.ptes, t.frames, t.refs)
  {
    var t := ExitProc(s, pid);
    forall k | k in t.ptes && t.ptes[k].v ensures t.ptes[k].frame in t.refs {
      assert k in Mappers(t.ptes, t.ptes[k].frame);
    }
  }

  /** One page of a region entered by `sys_mmap`: nothing is allocated. */
  function MapPage(s: State, k: Key, a: Attr): State {
    s.(maps := s.maps[k := a], ptes := if k in s.ptes then s.ptes else s.ptes[k := NONE])
  }

  function MapMem(m: Mem, k: Key, a: Attr): Mem {
    if a.shared then
      var o := Obj(m.next, a.writable);
      m.(kinds := m.kinds[k := View(o)], objs := m.objs[o := ZEROS], next := m.next + 1)
    else m.(kinds := m.kinds[k := Own], own := m.own[k := ZEROS])
  }

  lemma MapContents(m: Mem, k: Key, a: Attr)
    requires Objects(m) && k !in m.kinds
    ensures Contents(MapMem(m, k, a), k) == ZEROS
    ensures forall j :: j in m.kinds ==> Contents(MapMem(m, k, a), j) == Contents(m, j)
    ensures Objects(MapMem(m, k, a))
  {
  }

  lemma MapPairs(ptes: map<Key, Pte>, ptes': map<Key, Pte>, m: Mem, k: Key, a: Attr)
    requires Exclusive(ptes, m.kinds) && Joined(ptes, m.kinds) && k !in m.kinds && Objects(m)
    requires (k in ptes ==> !ptes[k].v) && ptes' == if k in ptes then ptes else ptes[k := NONE]
    ensures Exclusive(ptes', MapMem(m, k, a).kinds) && Joined(ptes', MapMem(m, k, a).kinds)
  {
    var kinds' := MapMem(m, k, a).kinds;
    forall i, j | SameFrame(ptes', i, j) ensures SameFrame(ptes, i, j) && i != k && j != k {
    }
    forall i, j | SameObject(kinds', i, j) && i != j ensures SameObject(m.kinds, i, j) && i != k && j != k {
    }
  }

  /** Mapping a page anew keeps the promise, also where munmap left an entry. */
  lemma MapRefines(s: State, m: Mem, k: Key, a: Attr)
    requires Simulates(s, m) && k !in s.maps
    ensures Simulates(MapPage(s, k, a), MapMem(m, k, a))
  {
    var t := MapPage(s, k, a);
    MapContents(m, k, a);
    MapPairs(s.ptes, t.ptes, m, k, a);
    if k !in s.ptes {
      CountedSame(s.ptes, s.frames, s.refs, k, NONE);
    }
    MapTyped(s, m, k, a);
    MapFaithful(s.ptes, t.ptes, s.frames, m, k, a);
  }

  lemma MapTyped(s: State, m: Mem, k: Key, a: Attr)
    requires Typed(s.maps, s.ptes, m.kinds) && k !in s.maps
    ensures Typed(MapPage(s, k, a).maps, MapPage(s, k, a).ptes, MapMem(m, k, a).kinds)
  {
  }

  lemma MapFaithful(ptes: map<Key, Pte>, ptes': map<Key, Pte>, frames: map<nat, Data>, m: Mem, k: Key, a: Attr)
    requires Faithful(ptes, frames, m) && Objects(m) && k !in m.kinds
    requires ptes' == if k in ptes then ptes else ptes[k := NONE]
    ensures Faithful(ptes', frames, MapMem(m, k, a))
  {
    MapContents(m, k, a);
  }
}
