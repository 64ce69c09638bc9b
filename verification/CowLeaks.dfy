/** Runs in which a first touch gives one physical page to unrelated memory, up to the wrong byte. */
module CowLeaks {
  import opened Cow
  import opened CowRuns

  const P := 0x88000
  const RW_SHARED := Attr(true, true)
  const RW_PRIVATE := Attr(true, false)

  const K1 := Key(1, P)
  const K2 := Key(2, P)
  const K3 := Key(3, P)
  const K4 := Key(4, P)

  const WAIT := MakePte(0, RW_SHARED, true, false)

  lemma {:induction false} Snoc(s: State, m: Mem, ls: seq<Step>, l: Step)
    requires Legal(s, ls) && Enabled(Exec(s, ls), l)
    ensures Legal(s, ls + [l]) && Exec(s, ls + [l]) == Next(Exec(s, ls), l)
    ensures Promised(m, ls + [l]) == Promise(Promised(m, ls), l)
    decreases |ls|
  {
    if ls == [] {
      assert [] + [l] == [l] && [l][1..] == [];
      assert Legal(Next(s, l), []);
    } else {
      assert (ls + [l])[0] == ls[0] && (ls + [l])[1..] == ls[1..] + [l];
      Snoc(Next(s, ls[0]), Promise(m, ls[0]), ls[1..], l);
    }
  }

  /** The run from empty memory leads to this state and this promise. */
  ghost predicate Leads(ls: seq<Step>, s: State, m: Mem) {
    Legal(EMPTY, ls) && Exec(EMPTY, ls) == s && Promised(NOTHING, ls) == m
  }

  lemma LeadsOn(ls: seq<Step>, s: State, m: Mem, l: Step)
    requires Leads(ls, s, m) && Enabled(s, l)
    ensures Leads(ls + [l], Next(s, l), Promise(m, l))
  {
    Snoc(EMPTY, NOTHING, ls, l);
  }

  /** A load of the first byte at `k` does not deliver the promised one. */
  ghost predicate WrongByte(s: State, m: Mem, k: Key) {
    && k in s.ptes && s.ptes[k].v && s.ptes[k].frame in s.frames && k in m.kinds
    && |s.frames[s.ptes[k].frame].bytes| > 0 && |Contents(m, k).bytes| > 0
    && s.frames[s.ptes[k].frame].bytes[0] != Contents(m, k).bytes[0]
  }

  /** Touching and storing to page K1 shows at a waiting page `j` that is promised to be zero still. */
  lemma StoreLeaks(ls: seq<Step>, s: State, m: Mem, j: Key)
    requires Leads(ls, s, m) && s.frames == map[] && s.refs == map[] && s.maps.Keys <= s.ptes.Keys
    requires K1 in s.maps && s.maps[K1].writable && j != K1 && j.page == P && K1 in m.kinds && j in m.kinds
    requires K1 in s.ptes && j in s.ptes && IsPlaceholder(s.ptes[K1]) && IsPlaceholder(s.ptes[j])
    requires Objects(m) && !SameObject(m.kinds, j, K1) && Contents(m, j) == ZEROS
    ensures Legal(EMPTY, ls + [Fault(K1, true, 7)] + [Store(K1, 0, 1)])
    ensures var run := ls + [Fault(K1, true, 7)] + [Store(K1, 0, 1)];
      WrongByte(Exec(EMPTY, run), Promised(NOTHING, run), j)
  {
    LeadsOn(ls, s, m, Fault(K1, true, 7));
    var t := FaultShared(s, K1, 7);
    assert Pagefault(s, K1, true, 7) == Done(t);
    assert t.ptes[K1] == t.ptes[j] == MakePte(7, s.maps[K1], false, false) && t.frames[7] == ZEROS;
    LeadsOn(ls + [Fault(K1, true, 7)], t, m, Store(K1, 0, 1));
    WriteSeen(m, K1, Contents(m, K1).Put(0, 1), j);
  }

  // ----- two families that map the same address on their own

  lemma TwoMapped() returns (ls: seq<Step>)
    ensures Leads(ls, State(map[K1 := RW_SHARED, K2 := RW_SHARED], map[K1 := NONE, K2 := NONE], map[], map[]),
                  Mem(map[K1 := View(Obj(0, true)), K2 := View(Obj(1, true))], map[],
                      map[Obj(0, true) := ZEROS, Obj(1, true) := ZEROS], 2))
  {
    assert Leads([], EMPTY, NOTHING);
    LeadsOn([], EMPTY, NOTHING, Map(K1, RW_SHARED));
    var s, m := MapPage(EMPTY, K1, RW_SHARED), MapMem(NOTHING, K1, RW_SHARED);
    LeadsOn([] + [Map(K1, RW_SHARED)], s, m, Map(K2, RW_SHARED));
    ls := [] + [Map(K1, RW_SHARED)] + [Map(K2, RW_SHARED)];
  }

  const TWO := map[K1 := View(Obj(0, true)), K2 := View(Obj(1, true)), K3 := View(Obj(0, true)), K4 := View(Obj(1,
      true))]
  const OBJS := map[Obj(0, true) := ZEROS, Obj(1, true) := ZEROS]

  lemma TwoWaiting() returns (ls: seq<Step>)
    ensures Leads(ls, State(map[K1 := RW_SHARED, K2 := RW_SHARED, K3 := RW_SHARED, K4 := RW_SHARED],
                            map[K1 := WAIT, K2 := WAIT, K3 := WAIT, K4 := WAIT], map[], map[]),
                  Mem(TWO, map[], OBJS, 2))
  {
    ls := TwoMapped();
    var s := State(map[K1 := RW_SHARED, K2 := RW_SHARED], map[K1 := NONE, K2 := NONE], map[], map[]);
    var m := Mem(map[K1 := View(Obj(0, true)), K2 := View(Obj(1, true))], map[], OBJS, 2);
    LeadsOn(ls, s, m, Fork(K1, K3));
    var s1 := State(s.maps[K3 := RW_SHARED], map[K1 := WAIT, K2 := NONE, K3 := WAIT], map[], map[]);
    assert ForkPage(s, K1, K3) == s1;
    LeadsOn(ls + [Fork(K1, K3)], s1, m.(kinds := m.kinds[K3 := View(Obj(0, true))]), Fork(K2, K4));
    ls := ls + [Fork(K1, K3)] + [Fork(K2, K4)];
  }

  /** Process 1 stores to its shared page, and the unrelated process 2 reads the byte in its own. */
  lemma UnrelatedShareMemory() returns (ls: seq<Step>)
    ensures Legal(EMPTY, ls) && WrongByte(Exec(EMPTY, ls), Promised(NOTHING, ls), K2)
  {
    ls := TwoWaiting();
    var s := State(map[K1 := RW_SHARED, K2 := RW_SHARED, K3 := RW_SHARED, K4 := RW_SHARED],
                   map[K1 := WAIT, K2 := WAIT, K3 := WAIT, K4 := WAIT], map[], map[]);
    StoreLeaks(ls, s, Mem(TWO, map[], OBJS, 2), K2);
    ls := ls + [Fault(K1, true, 7)] + [Store(K1, 0, 1)];
  }

  // ----- a private mapping where munmap left an entry

  lemma LeftWaiting() returns (ls: seq<Step>)
    ensures Leads(ls, State(map[K3 := RW_SHARED], map[K1 := WAIT, K3 := WAIT], map[], map[]),
                  Mem(map[K3 := View(Obj(0, true))], map[], map[Obj(0, true) := ZEROS], 1))
  {
    assert Leads([], EMPTY, NOTHING);
    LeadsOn([], EMPTY, NOTHING, Map(K1, RW_SHARED));
    var s1 := State(map[K1 := RW_SHARED], map[K1 := NONE], map[], map[]);
    var m1 := Mem(map[K1 := View(Obj(0, true))], map[], map[Obj(0, true) := ZEROS], 1);
    LeadsOn([] + [Map(K1, RW_SHARED)], s1, m1, Fork(K1, K3));
    var s2 := State(map[K1 := RW_SHARED, K3 := RW_SHARED], map[K1 := WAIT, K3 := WAIT], map[], map[]);
    var m2 := m1.(kinds := map[K1 := View(Obj(0, true)), K3 := View(Obj(0, true))]);
    LeadsOn([] + [Map(K1, RW_SHARED)] + [Fork(K1, K3)], s2, m2, Munmap(K1));
    ls := [] + [Map(K1, RW_SHARED)] + [Fork(K1, K3)] + [Munmap(K1)];
    assert s2.maps - {K1} == map[K3 := RW_SHARED] && s2.ptes[K1 := WAIT] == s2.ptes;
    assert m2.kinds - {K1} == map[K3 := View(Obj(0, true))];
  }

  /** Process 1 maps private memory where it had unmapped a shared page; its child reads the store. */
  lemma PrivateStoreShows() returns (ls: seq<Step>)
    ensures Legal(EMPTY, ls) && WrongByte(Exec(EMPTY, ls), Promised(NOTHING, ls), K3)
    ensures Promised(NOTHING, ls).kinds == map[K3 := View(Obj(0, true)), K1 := Own]
  {
    ls := LeftWaiting();
    var s := State(map[K3 := RW_SHARED], map[K1 := WAIT, K3 := WAIT], map[], map[]);
    var m := Mem(map[K3 := View(Obj(0, true))], map[], map[Obj(0, true) := ZEROS], 1);
    LeadsOn(ls, s, m, Map(K1, RW_PRIVATE));
    var s1, m1 := MapPage(s, K1, RW_PRIVATE), MapMem(m, K1, RW_PRIVATE);
    StoreLeaks(ls + [Map(K1, RW_PRIVATE)], s1, m1, K3);
    Snoc(EMPTY, NOTHING, ls + [Map(K1, RW_PRIVATE)], Fault(K1, true, 7));
    Snoc(EMPTY, NOTHING, ls + [Map(K1, RW_PRIVATE)] + [Fault(K1, true, 7)], Store(K1, 0, 1));
    ls := ls + [Map(K1, RW_PRIVATE)] + [Fault(K1, true, 7)] + [Store(K1, 0, 1)];
  }

  /** A touch by the child gives process 1 a page at an address that it has unmapped, and its exit panics. */
  lemma UnmappedPageAppears() returns (ls: seq<Step>)
    ensures Legal(EMPTY, ls)
    ensures var s := Exec(EMPTY, ls);
      K1 !in s.maps && K1 in s.ptes && s.ptes[K1].v && s.ptes[K1].w && LeafLeft(s, K1.pid)
  {
    ls := LeftWaiting();
    var s := State(map[K3 := RW_SHARED], map[K1 := WAIT, K3 := WAIT], map[], map[]);
    LeadsOn(ls, s, Mem(map[K3 := View(Obj(0, true))], map[], map[Obj(0, true) := ZEROS], 1), Fault(K3, true, 7));
    assert Pagefault(s, K3, true, 7) == Done(FaultShared(s, K3, 7));
    ls := ls + [Fault(K3, true, 7)];
  }
}
