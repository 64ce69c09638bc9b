/** What the copy-on-write machinery guarantees over whole runs. */
module CowRuns {
  import opened Cow
  import opened FiniteSets

  // ----- one fault

  /** `pagefault` preserves the promise, provided the pages waiting at this address may share. */
  lemma PagefaultRefines(s: State, m: Mem, k: Key, store: bool, f: nat)
    requires Simulates(s, m) && f !in s.refs
    requires k in s.maps && IsPlaceholder(s.ptes[k]) ==> Harmless(s.maps, s.ptes, m.kinds, k)
    ensures k in s.ptes && s.ptes[k].v ==> s.ptes[k].frame in s.frames && s.ptes[k].frame in s.refs
    ensures var r := Pagefault(s, k, store, f); r.Done? ==> Simulates(r.s, m)
  {
    if k !in s.maps { return; }
    assert Flagged(s.maps[k], s.ptes[k]);
    if s.ptes[k].v {
      if store && !s.ptes[k].w && IsCow(s.ptes[k]) {
        CowRefines(s, m, k, f);
        return;
      }
    } else if IsPlaceholder(s.ptes[k]) {
      SharedRefines(s, m, k, f);
      return;
    } else {
      FreshRefines(s, m, k, f);
      return;
    }
  }

  /**
   * A fault ends in a kill exactly for an address outside every mapping and for a store to a present
   * page of a read-only mapping.  Otherwise the page is present afterwards, and a store is possible
   * exactly if the mapping is writable.
   */
  lemma PagefaultServes(s: State, m: Mem, k: Key, store: bool, f: nat)
    requires Simulates(s, m) && f !in s.refs
    ensures k in s.ptes && s.ptes[k].v ==> s.ptes[k].frame in s.frames && s.ptes[k].frame in s.refs
    ensures var r := Pagefault(s, k, store, f);
      && (r.Killed? <==> k !in s.maps || (store && s.ptes[k].v && !s.maps[k].writable))
      && (r.Done? ==> r.s.ptes[k].v && r.s.ptes[k].r && (store ==> r.s.ptes[k].w == s.maps[k].writable))
  {
    if k in s.maps { assert Flagged(s.maps[k], s.ptes[k]); }
  }

  /** A fault that leaves the access impossible is followed by one that kills: the store was not allowed. */
  lemma SecondFaultKills(s: State, m: Mem, k: Key, store: bool, f: nat, g: nat)
    requires Simulates(s, m) && f !in s.refs && k in s.maps
    requires k in s.ptes && s.ptes[k].v ==> s.ptes[k].frame in s.frames && s.ptes[k].frame in s.refs
    requires IsPlaceholder(s.ptes[k]) ==> Harmless(s.maps, s.ptes, m.kinds, k)
    ensures var r := Pagefault(s, k, store, f);
      r.Done? && store && !r.s.ptes[k].w ==>
        && !s.maps[k].writable
        && (g !in r.s.refs ==>
              && r.s.ptes[k].frame in r.s.frames && r.s.ptes[k].frame in r.s.refs
              && Pagefault(r.s, k, store, g).Killed?)
  {
    PagefaultServes(s, m, k, store, f);
    PagefaultRefines(s, m, k, store, f);
    var r := Pagefault(s, k, store, f);
    if r.Done? && g !in r.s.refs {
      PagefaultServes(r.s, m, k, store, g);
    }
  }

  /** A load through a valid entry reads the promised byte. */
  lemma LoadRefines(s: State, m: Mem, k: Key)
    requires Simulates(s, m) && k in s.ptes && s.ptes[k].v
    ensures k in m.kinds && s.ptes[k].frame in s.frames && s.frames[s.ptes[k].frame] == Contents(m, k)
  {
  }

  // ----- what the promise says

  /** A store to private memory is seen by nobody else, one to shared memory by all views of the page. */
  lemma WriteSeen(m: Mem, k: Key, d: Data, j: Key)
    requires Objects(m) && k in m.kinds && j in m.kinds
    ensures Contents(Write(m, k, d), j) == if j == k || SameObject(m.kinds, j, k) then d else Contents(m, j)
  {
  }

  // ----- the promise as a program can observe it

  /** Stores are possible exactly where the mapping allows them, at once or after a copy. */
  ghost predicate Rights(s: State) {
    forall k :: k in s.ptes && s.ptes[k].v ==>
      k in s.maps && (if s.maps[k].writable then s.ptes[k].w || IsCow(s.ptes[k]) else !s.ptes[k].w && !IsCow(s.ptes[k]))
  }

  /** The physical pages after a store through the entry of `k`. */
  function Stored(s: State, k: Key, off: nat, x: nat): map<nat, Data>
    requires k in s.ptes && s.ptes[k].frame in s.frames
  {
    s.frames[s.ptes[k].frame := s.frames[s.ptes[k].frame].Put(off, x)]
  }

  ghost predicate StoreShows(s: State, m: Mem, k: Key, off: nat, x: nat) {
    k in s.ptes && s.ptes[k].v && s.ptes[k].w && s.ptes[k].frame in s.frames && k in m.kinds ==>
      Faithful(s.ptes, Stored(s, k, off, x), Write(m, k, Contents(m, k).Put(off, x)))
  }

  /** Every load reads the promised byte, also after any one store, and accesses are killed only when due. */
  ghost predicate Honest(s: State, m: Mem) {
    Faithful(s.ptes, s.frames, m) && Rights(s) && forall k, off, x :: StoreShows(s, m, k, off, x)
  }

  lemma SimulatesHonest(s: State, m: Mem)
    requires Simulates(s, m)
    ensures Honest(s, m)
  {
    forall k, off, x ensures StoreShows(s, m, k, off, x) {
      StoreHonest(s, m, k, off, x);
    }
    TypedRights(s, m.kinds);
  }

  lemma StoreHonest(s: State, m: Mem, k: Key, off: nat, x: nat)
    requires Faithful(s.ptes, s.frames, m) && Exclusive(s.ptes, m.kinds) && Joined(s.ptes, m.kinds) && Objects(m)
    ensures StoreShows(s, m, k, off, x)
  {
    if k in s.ptes && s.ptes[k].v && s.ptes[k].w && k in m.kinds {
      FaithfulStore(s.ptes, s.frames, m, k, Contents(m, k).Put(off, x));
    }
  }

  lemma TypedRights(s: State, kinds: map<Key, Kind>)
    requires Typed(s.maps, s.ptes, kinds)
    ensures Rights(s)
  {
    forall k | k in s.ptes && s.ptes[k].v
      ensures k in s.maps
      ensures (if s.maps[k].writable then s.ptes[k].w || IsCow(s.ptes[k]) else !s.ptes[k].w && !IsCow(s.ptes[k]))
    {
      assert Flagged(s.maps[k], s.ptes[k]);
    }
  }

  /** Unrelated pages that one fault has given one page: some access goes wrong. */
  lemma SharedWrongly(s: State, m: Mem, k: Key, f: nat, j: Key)
    requires Simulates(s, m) && k in s.maps && IsPlaceholder(s.ptes[k]) && f !in s.refs
    requires j in Waiting(s.ptes, k.page) && !MayShare(s.maps, m.kinds, j, k)
    ensures !Honest(FaultShared(s, k, f), m)
  {
    var t := FaultShared(s, k, f);
    assert k in Waiting(s.ptes, k.page);
    assert t.ptes[j] == t.ptes[k] == MakePte(f, s.maps[k], false, false);
    if j in s.maps && s.maps[j].writable && s.maps[k].writable {
      var d := Contents(m, k).Put(0, 1);
      assert Contents(m, k) == ZEROS && Contents(m, j) == ZEROS && d.bytes[0] == 1;
      WriteSeen(m, k, d, j);
      assert Stored(t, k, 0, 1)[f] == d;
      assert !StoreShows(t, m, k, 0, 1);
    }
  }

  /** A fault on a waiting page keeps the promise just when the pages waiting at the address may share. */
  lemma SharedExact(s: State, m: Mem, k: Key, f: nat)
    requires Simulates(s, m) && k in s.maps && IsPlaceholder(s.ptes[k]) && f !in s.refs
    ensures Honest(FaultShared(s, k, f), m) <==> Harmless(s.maps, s.ptes, m.kinds, k)
  {
    if Harmless(s.maps, s.ptes, m.kinds, k) {
      SharedRefines(s, m, k, f);
      SimulatesHonest(FaultShared(s, k, f), m);
    } else {
      var j :| j in Waiting(s.ptes, k.page) && !MayShare(s.maps, m.kinds, j, k);
      SharedWrongly(s, m, k, f, j);
    }
  }

  // ----- runs

  /** `Munmap` is one page of `sys_munmap`, `Exit` the whole of `proc_freepagetable`. */
  datatype Step =
    | Map(k: Key, a: Attr)
    | Store(k: Key, off: nat, x: nat)
    | Fault(k: Key, store: bool, f: nat)
    | Fork(k: Key, c: Key)
    | Munmap(k: Key)
    | Exit(pid: nat)

  /** A present page that no region covers: `freewalk` finds it and panics when the process exits. */
  ghost predicate LeafLeft(s: State, pid: nat) {
    exists k :: k in s.ptes && k.pid == pid && s.ptes[k].v && k !in s.maps
  }

  ghost predicate Enabled(s: State, l: Step) {
    match l
    case Map(k, a) => k !in s.maps
    case Store(k, off, x) => k in s.ptes && s.ptes[k].v && s.ptes[k].w && s.ptes[k].frame in s.frames
    case Fault(k, store, f) =>
      && f !in s.refs && s.maps.Keys <= s.ptes.Keys
      && (k in s.ptes && s.ptes[k].v ==> s.ptes[k].frame in s.frames && s.ptes[k].frame in s.refs)
    case Fork(k, c) =>
      && k in s.maps && k in s.ptes && c !in s.ptes && c.page == k.page
      && (s.ptes[k].v ==> s.ptes[k].frame in s.refs)
    case Munmap(k) => k in s.maps && k in s.ptes && (s.ptes[k].v ==> s.ptes[k].frame in s.refs)
    case Exit(pid) => !LeafLeft(s, pid)
  }

  ghost function Next(s: State, l: Step): State
    requires Enabled(s, l)
  {
    match l
    case Map(k, a) => MapPage(s, k, a)
    case Store(k, off, x) => s.(frames := Stored(s, k, off, x))
    case Fault(k, store, f) => (match Pagefault(s, k, store, f) case Done(t) => t case Killed => s)
    case Fork(k, c) => ForkPage(s, k, c)
    case Munmap(k) => UnmapPage(s, k)
    case Exit(pid) => ExitProc(s, pid)
  }

  /** What the step means for the promised memory: faults mean nothing. */
  ghost function Promise(m: Mem, l: Step): Mem {
    match l
    case Map(k, a) => MapMem(m, k, a)
    case Store(k, off, x) => if k in m.kinds then Write(m, k, Contents(m, k).Put(off, x)) else m
    case Fault(_, _, _) => m
    case Fork(k, c) => if k in m.kinds then ForkMem(m, k, c) else m
    case Munmap(k) => m.(kinds := m.kinds - {k})
    case Exit(pid) => m.(kinds := m.kinds - KeysOf(m.kinds, pid))
  }

  ghost predicate Legal(s: State, ls: seq<Step>)
    decreases |ls|
  {
    ls == [] || (Enabled(s, ls[0]) && Legal(Next(s, ls[0]), ls[1..]))
  }

  ghost function Exec(s: State, ls: seq<Step>): State
    requires Legal(s, ls)
    decreases |ls|
  {
    if ls == [] then s else Exec(Next(s, ls[0]), ls[1..])
  }

  ghost function Promised(m: Mem, ls: seq<Step>): Mem
    decreases |ls|
  {
    if ls == [] then m else Promised(Promise(m, ls[0]), ls[1..])
  }

  const EMPTY := State(map[], map[], map[], map[])
  const NOTHING := Mem(map[], map[], map[], 0)

  /** A first touch after fork or munmap connects only pages that may share. */
  ghost predicate Safe(s: State, m: Mem, l: Step) {
    l.Fault? && l.k in s.maps && l.k in s.ptes && IsPlaceholder(s.ptes[l.k]) ==> Harmless(s.maps, s.ptes, m.kinds, l.k)
  }

  ghost predicate AllSafe(s: State, m: Mem, ls: seq<Step>)
    requires Legal(s, ls)
    decreases |ls|
  {
    ls == [] || (Safe(s, m, ls[0]) && AllSafe(Next(s, ls[0]), Promise(m, ls[0]), ls[1..]))
  }

  /** The promise is kept before and after every step. */
  ghost predicate AllHonest(s: State, m: Mem, ls: seq<Step>)
    requires Legal(s, ls)
    decreases |ls|
  {
    Honest(s, m) && (ls == [] || AllHonest(Next(s, ls[0]), Promise(m, ls[0]), ls[1..]))
  }

  lemma StepRefines(s: State, m: Mem, l: Step)
    requires Simulates(s, m) && Enabled(s, l) && Safe(s, m, l)
    ensures Simulates(Next(s, l), Promise(m, l))
  {
    match l
    case Map(k, a) => MapRefines(s, m, k, a);
    case Store(k, off, x) => StoreRefines(s, m, k, off, x);
    case Fault(k, store, f) => PagefaultRefines(s, m, k, store, f);
    case Fork(k, c) => ForkRefines(s, m, k, c);
    case Munmap(k) => UnmapRefines(s, m, k);
    case Exit(pid) => ExitRefines(s, m, pid);
  }

  lemma StepExact(s: State, m: Mem, l: Step)
    requires Simulates(s, m) && Enabled(s, l) && !Safe(s, m, l)
    ensures !Honest(Next(s, l), Promise(m, l))
  {
    SharedExact(s, m, l.k, l.f);
  }

  /**
   * Refinement over whole runs: page tables, software bits, shared physical pages and counts
   * present the promised memory, as long as faults connect only pages that may share.
   */
  lemma {:induction false} RunRefines(s: State, m: Mem, ls: seq<Step>)
    requires Simulates(s, m) && Legal(s, ls) && AllSafe(s, m, ls)
    ensures Simulates(Exec(s, ls), Promised(m, ls))
    decreases |ls|
  {
    if ls != [] {
      StepRefines(s, m, ls[0]);
      RunRefines(Next(s, ls[0]), Promise(m, ls[0]), ls[1..]);
    }
  }

  /** For every run: the promise is kept throughout just when every such fault is safe. */
  lemma {:induction false} RunExact(s: State, m: Mem, ls: seq<Step>)
    requires Simulates(s, m) && Legal(s, ls)
    ensures AllHonest(s, m, ls) <==> AllSafe(s, m, ls)
    decreases |ls|
  {
    SimulatesHonest(s, m);
    if ls != [] {
      if Safe(s, m, ls[0]) {
        StepRefines(s, m, ls[0]);
        RunExact(Next(s, ls[0]), Promise(m, ls[0]), ls[1..]);
      } else {
        StepExact(s, m, ls[0]);
      }
    }
  }

  /** Both, for every run from empty memory. */
  lemma BootExact(ls: seq<Step>)
    requires Legal(EMPTY, ls)
    ensures AllHonest(EMPTY, NOTHING, ls) <==> AllSafe(EMPTY, NOTHING, ls)
    ensures AllSafe(EMPTY, NOTHING, ls) ==> Simulates(Exec(EMPTY, ls), Promised(NOTHING, ls))
  {
    RunExact(EMPTY, NOTHING, ls);
    if AllSafe(EMPTY, NOTHING, ls) {
      RunRefines(EMPTY, NOTHING, ls);
    }
  }

  /** Where the promise is kept, exit does not panic. */
  lemma ExitNeverPanics(s: State, m: Mem, pid: nat)
    requires Simulates(s, m)
    ensures !LeafLeft(s, pid)
  {
  }

  // ----- reference counts, whether or not the promise is kept

  /** Entries for one physical page are at one address. */
  ghost predicate OnePage(ptes: map<Key, Pte>) {
    forall j, k :: SameFrame(ptes, j, k) ==> j.page == k.page
  }

  /** Counts are right and every mapped page has an entry. */
  ghost predicate Tallied(s: State) {
    s.maps.Keys <= s.ptes.Keys && Counted(s.ptes, s.frames, s.refs) && OnePage(s.ptes)
  }

  lemma FaultTallied(s: State, k: Key, store: bool, f: nat)
    requires Tallied(s) && Enabled(s, Fault(k, store, f))
    ensures Tallied(Next(s, Fault(k, store, f)))
  {
    if k in s.maps {
      var e := MakePte(f, s.maps[k], false, false);
      if s.ptes[k].v {
        if store && !s.ptes[k].w && IsCow(s.ptes[k]) {
          CowCounted(s, k, f);
          CowOrder(s, k, f);
          NewPage(s, k, e);
        }
      } else if IsPlaceholder(s.ptes[k]) {
        ConnectCounted(s, k, f);
        ConnectPage(s, k, f);
      } else {
        CountedNew(s.ptes, s.frames, s.refs, k, e, ZEROS);
        NewPage(s, k, e);
      }
    }
  }

  lemma NewPage(s: State, k: Key, e: Pte)
    requires Tallied(s) && k in s.ptes && e.frame !in s.refs
    ensures OnePage(s.ptes[k := e])
  {
    var ptes := s.ptes[k := e];
    forall i, j | SameFrame(ptes, i, j) ensures i.page == j.page {
      assert i == j || SameFrame(s.ptes, i, j);
    }
  }

  lemma ConnectPage(s: State, k: Key, f: nat)
    requires Tallied(s) && k in s.maps && f !in s.refs
    ensures OnePage(FaultShared(s, k, f).ptes)
  {
    var ptes := FaultShared(s, k, f).ptes;
    forall i, j | SameFrame(ptes, i, j) ensures i.page == j.page {
      assert (i.page == k.page && j.page == k.page) || SameFrame(s.ptes, i, j);
    }
  }

  lemma ForkTallied(s: State, k: Key, c: Key)
    requires Tallied(s) && Enabled(s, Fork(k, c))
    ensures Tallied(ForkPage(s, k, c))
  {
    var e := ForkParent(s.maps[k], s.ptes[k]);
    var e' := ForkChild(s.maps[k], e);
    ForkCounted(s, k, c, e, e');
    ForkOnePage(s.ptes, k, c, e, e');
  }

  lemma ForkCounted(s: State, k: Key, c: Key, e: Pte, e': Pte)
    requires Counted(s.ptes, s.frames, s.refs) && k in s.ptes && c !in s.ptes
    requires e.v == e'.v == s.ptes[k].v && (e.v ==> e' == e && e.frame == s.ptes[k].frame && e.frame in s.refs)
    ensures var t := if s.ptes[k].v then IncrRef(s, e.frame) else s;
      Counted(s.ptes[k := e][c := e'], t.frames, t.refs)
  {
    var ptes := s.ptes[k := e];
    CountedSame(s.ptes, s.frames, s.refs, k, e);
    if e.v {
      CountedAdd(ptes, s.frames, s.refs, c, e');
    } else {
      CountedSame(ptes, s.frames, s.refs, c, e');
    }
  }

  lemma ForkOnePage(ptes: map<Key, Pte>, k: Key, c: Key, e: Pte, e': Pte)
    requires OnePage(ptes) && k in ptes && c != k && c.page == k.page
    requires (e.v ==> ptes[k].v && e.frame == ptes[k].frame) && (e'.v ==> e' == e)
    ensures OnePage(ptes[k := e][c := e'])
  {
    forall i, j | SameFrame(ptes[k := e][c := e'], i, j) ensures i.page == j.page {
      var x, y := if i == c then k else i, if j == c then k else j;
      assert SameFrame(ptes, x, y);
    }
  }

  lemma FewerPage(ptes: map<Key, Pte>, ptes': map<Key, Pte>)
    requires OnePage(ptes) && forall k :: k in ptes' && ptes'[k].v ==> k in ptes && ptes'[k] == ptes[k]
    ensures OnePage(ptes')
  {
    forall i, j | SameFrame(ptes', i, j) ensures i.page == j.page {
      assert SameFrame(ptes, i, j);
    }
  }

  lemma MapTallied(s: State, k: Key, a: Attr)
    requires Tallied(s)
    ensures Tallied(MapPage(s, k, a))
  {
    if k !in s.ptes {
      CountedSame(s.ptes, s.frames, s.refs, k, NONE);
    }
    FewerPage(s.ptes, MapPage(s, k, a).ptes);
  }

  lemma UnmapTallied(s: State, k: Key)
    requires Tallied(s) && Enabled(s, Munmap(k))
    ensures Tallied(UnmapPage(s, k))
  {
    UnmapCounted(s, k);
    FewerPage(s.ptes, UnmapPage(s, k).ptes);
  }

  lemma ExitTallied(s: State, pid: nat)
    requires Tallied(s)
    ensures Tallied(ExitProc(s, pid))
  {
    ExitCounted(s, pid);
    FewerPage(s.ptes, ExitProc(s, pid).ptes);
  }

  lemma StoreTallied(s: State, k: Key, off: nat, x: nat)
    requires Tallied(s) && Enabled(s, Store(k, off, x))
    ensures Tallied(s.(frames := Stored(s, k, off, x)))
  {
    assert Stored(s, k, off, x).Keys == s.frames.Keys;
  }

  lemma StepTallied(s: State, l: Step)
    requires Tallied(s) && Enabled(s, l)
    ensures Tallied(Next(s, l))
  {
    match l
    case Map(k, a) => MapTallied(s, k, a);
    case Store(k, off, x) => StoreTallied(s, k, off, x);
    case Fault(k, store, f) => FaultTallied(s, k, store, f);
    case Fork(k, c) => ForkTallied(s, k, c);
    case Munmap(k) => UnmapTallied(s, k);
    case Exit(pid) => ExitTallied(s, pid);
  }

  lemma {:induction false} RunTallied(s: State, ls: seq<Step>)
    requires Tallied(s) && Legal(s, ls)
    ensures Tallied(Exec(s, ls))
    decreases |ls|
  {
    if ls != [] {
      StepTallied(s, ls[0]);
      RunTallied(Next(s, ls[0]), ls[1..]);
    }
  }

  lemma {:induction false} PidsOf(ks: set<Key>, page: nat) returns (pids: set<nat>)
    requires forall k :: k in ks ==> k.page == page
    ensures |pids| == |ks| && forall p :: p in pids <==> Key(p, page) in ks
  {
    if ks == {} {
      pids := {};
    } else {
      var k :| k in ks;
      var rest := PidsOf(ks - {k}, page);
      pids := rest + {k.pid};
      assert ks == (ks - {k}) + {k};
      forall p ensures p in pids <==> Key(p, page) in ks {
        assert Key(p, page) in ks <==> Key(p, page) in ks - {k} || p == k.pid;
      }
      assert k.pid !in rest;
    }
  }

  /**
   * After every run from empty memory the count of a page is the number of its entries.  It has at most one per
   * process, so the 8-bit counter cannot wrap.
   */
  lemma RefsBounded(ls: seq<Step>, procs: set<nat>, f: nat)
    requires Legal(EMPTY, ls) && f in Exec(EMPTY, ls).refs && |procs| <= NPROC
    requires forall k :: k in Exec(EMPTY, ls).ptes ==> k.pid in procs
    ensures var s := Exec(EMPTY, ls); 1 <= s.refs[f] == |Mappers(s.ptes, f)| <= NPROC < 256
  {
    RunTallied(EMPTY, ls);
    var s := Exec(EMPTY, ls);
    var ks := Mappers(s.ptes, f);
    var k :| k in ks;
    forall j | j in ks ensures j.page == k.page {
      assert SameFrame(s.ptes, j, k);
    }
    var pids := PidsOf(ks, k.page);
    forall p | p in pids ensures p in procs {
      assert Key(p, k.page) in ks;
    }
    SubsetSize(pids, procs);
  }
}
