/** A run in which a copy into a logged block fails midway, and the commit makes its bytes durable. */
module LogFailedCopy {
  import opened LogMachine
  import opened LogSafety
  import opened LogRuns
  import opened Options

  const V := Block([1])
  const W := Block([2])

  lemma {:induction false} Snoc(s: State, h: History, f: Fate, ls: seq<Label>, l: Label, b: nat)
    requires Legal(s, ls) && Enabled(Exec(s, ls), l) && h.durable <= |h.trace|
    ensures Legal(s, ls + [l]) && Exec(s, ls + [l]) == Next(Exec(s, ls), l)
    ensures Story(h, s, ls + [l]) == Record(Story(h, s, ls), Exec(s, ls), l)
    ensures FateFrom(f, ls + [l], b) == After(FateFrom(f, ls, b), b, l)
    decreases |ls|
  {
    if ls == [] {
      LegalOne(s, l);
      assert [] + [l] == [l] && [l][1..] == [];
    } else {
      assert (ls + [l])[0] == ls[0] && (ls + [l])[1..] == ls[1..] + [l];
      Snoc(Next(s, ls[0]), Record(h, s, ls[0]), After(f, b, ls[0]), ls[1..], l, b);
    }
  }

  /** The run `ls` from a blank disk leads to this state, history and fate of block 0. */
  ghost predicate Leads(ls: seq<Label>, s: State, h: History, f: Fate) {
    var s0 := Start(Blank(1), 1);
    Legal(s0, ls) && Exec(s0, ls) == s && Story(Fresh(Blank(1).home), s0, ls) == h && FateOf(ls, 0) == f
  }

  lemma LeadsOn(ls: seq<Label>, s: State, h: History, f: Fate, l: Label)
    requires Leads(ls, s, h, f) && Enabled(s, l)
    ensures h.durable <= |h.trace| && Leads(ls + [l], Next(s, l), Record(h, s, l), After(f, 0, l))
  {
    Snoc(Start(Blank(1), 1), Fresh(Blank(1).home), Fate(None, false, None), ls, l, 0);
  }

  lemma LeadsBoot() returns (ls: seq<Label>)
    ensures Leads(ls, Start(Blank(1), 1).(phase := Running), Fresh(Blank(1).home), Fate(None, false, None))
  {
    var s, h, f := Start(Blank(1), 1), Fresh(Blank(1).home), Fate(None, false, None);
    assert Leads([], s, h, f);
    LeadsOn([], s, h, f, ReadHead);
    LeadsOn([ReadHead], s.(phase := Recovering(0)), h, f, RecoverDone);
    ls := [ReadHead] + [RecoverDone];
  }

  /** The machine with block 0 held and holding `v`. */
  function Holding(v: Block, lh: seq<nat>): State {
    State(Blank(1), map[0 := v], lh, if lh == [] then map[] else map[0 := 1], map[0 := 0], {},
          [Inside(|lh|)], 1, Running)
  }

  lemma LeadsBegun() returns (ls: seq<Label>)
    ensures Leads(ls, Start(Blank(1), 1).(phase := Running, agents := [Inside(0)], outstanding := 1),
                  Fresh(Blank(1).home).(trace := [Began(0)]), Fate(None, false, None))
  {
    ls := LeadsBoot();
    var s := Start(Blank(1), 1).(phase := Running);
    assert s.agents[0 := Inside(0)] == [Inside(0)];
    LeadsOn(ls, s, Fresh(Blank(1).home), Fate(None, false, None), Begin(0));
    ls := ls + [Begin(0)];
  }

  lemma LeadsRead() returns (ls: seq<Label>)
    ensures Leads(ls, Holding(ZERO, []), Fresh(Blank(1).home).(trace := [Began(0)]), Fate(None, false, None))
  {
    ls := LeadsBegun();
    var s := Start(Blank(1), 1).(phase := Running, agents := [Inside(0)], outstanding := 1);
    assert Blank(1).home[0] == ZERO;
    LeadsOn(ls, s, Fresh(Blank(1).home).(trace := [Began(0)]), Fate(None, false, None), Bread(0, 0));
    ls := ls + [Bread(0, 0)];
  }

  lemma LeadsChanged() returns (ls: seq<Label>)
    ensures Leads(ls, Holding(V, []).(unlogged := {0}), History(Blank(1).home, [Began(0)], 0, map[0 := V], map[]),
                  Fate(Some(V), false, None))
  {
    ls := LeadsRead();
    var h := Fresh(Blank(1).home).(trace := [Began(0)]);
    LeadsOn(ls, Holding(ZERO, []), h, Fate(None, false, None), Modify(0, 0, V));
    ls := ls + [Modify(0, 0, V)];
  }

  /** What has been logged so far, and what is in the buffer unlogged. */
  function Wrote0(loose: Home): History {
    History(Blank(1).home, [Began(0), Wrote(0, 0, V)], 0, loose, map[])
  }

  lemma LeadsLogged() returns (ls: seq<Label>)
    ensures Leads(ls, Holding(V, [0]), Wrote0(map[]), Fate(None, true, None))
  {
    ls := LeadsChanged();
    var h := History(Blank(1).home, [Began(0)], 0, map[0 := V], map[]);
    LeadsOn(ls, Holding(V, []).(unlogged := {0}), h, Fate(Some(V), false, None), LogWrite(0, 0));
    ls := ls + [LogWrite(0, 0)];
    assert {0} - {0} == {} && map[0 := V] - {0} == map[];
  }

  lemma LeadsReleased() returns (ls: seq<Label>)
    ensures Leads(ls, Holding(V, [0]).(locked := map[]), Wrote0(map[]), Fate(None, true, None))
  {
    ls := LeadsLogged();
    LeadsOn(ls, Holding(V, [0]), Wrote0(map[]), Fate(None, true, None), Brelse(0, 0));
    ls := ls + [Brelse(0, 0)];
    assert map[0 := 0] - {0} == map[];
  }

  lemma LeadsLeft() returns (ls: seq<Label>)
    ensures Leads(ls, Holding(W, [0]).(locked := map[], unlogged := {0}), Wrote0(map[0 := W]),
                  Fate(Some(W), true, None))
  {
    ls := LeadsReleased();
    var f := Fate(None, true, None);
    LeadsOn(ls, Holding(V, [0]).(locked := map[]), Wrote0(map[]), f, Bread(0, 0));
    ls := ls + [Bread(0, 0)];
    LeadsOn(ls, Holding(V, [0]), Wrote0(map[]), f, Modify(0, 0, W));
    ls := ls + [Modify(0, 0, W)];
    LeadsOn(ls, Holding(W, [0]).(unlogged := {0}), Wrote0(map[0 := W]), f.(dirty := Some(W)), Brelse(0, 0));
    ls := ls + [Brelse(0, 0)];
    assert map[0 := 0] - {0} == map[];
  }

  /** The operation has ended and `write_log` has copied `slots` of the log's one block. */
  function Ending(slots: seq<Block>, done: nat): State {
    State(Blank(1).(slots := slots), map[0 := W], [0], map[0 := 1], map[], {0}, [Outside], 0, WritingLog(done))
  }

  function Ended0(): History {
    Wrote0(map[0 := W]).(trace := [Began(0), Wrote(0, 0, V)] + [Ended(0)])
  }

  lemma LeadsEnded() returns (ls: seq<Label>)
    ensures Leads(ls, Ending(Blank(1).slots, 0), Ended0(), Fate(Some(W), true, None))
  {
    ls := LeadsLeft();
    var s := Holding(W, [0]).(locked := map[], unlogged := {0});
    LeadsOn(ls, s, Wrote0(map[0 := W]), Fate(Some(W), true, None), End(0));
    ls := ls + [End(0)];
  }

  lemma LeadsCommitted() returns (ls: seq<Label>)
    ensures Leads(ls, Ending([W], 1).(disk := Blank(1).(head := [0], slots := [W]), phase := Installing(0)),
                  Ended0().(durable := 3, spoiled := map[0 := W]), Fate(Some(W), false, Some(W)))
  {
    ls := LeadsEnded();
    LeadsOn(ls, Ending(Blank(1).slots, 0), Ended0(), Fate(Some(W), true, None), WriteLogBlock);
    ls := ls + [WriteLogBlock];
    assert Blank(1).slots[0 := W] == [W];
    LeadsOn(ls, Ending([W], 1), Ended0(), Fate(Some(W), true, None), CommitHead);
    ls := ls + [CommitHead];
    assert Chosen(map[0 := W], map[], [0]) == map[0 := W];
  }

  lemma LoggedV()
    ensures var h := Ended0().(durable := 3, spoiled := map[0 := W]); 0 in Durable(h) && Durable(h)[0] == V
  {
    var base, t := Blank(1).home, [Began(0)] + [Wrote(0, 0, V)];
    ApplyOne(base, [Began(0)], Wrote(0, 0, V));
    ApplyOne(base, t, Ended(0));
    assert [Began(0), Wrote(0, 0, V)] == t;
    assert Ended0().trace[..3] == t + [Ended(0)];
  }

  lemma ApplyOne(base: Home, t: seq<Event>, e: Event)
    ensures Apply(base, t + [e]) == if e.Wrote? then Apply(base, t)[e.b := e.v] else Apply(base, t)
  {
    assert (t + [e])[..|t|] == t;
  }

  /** A run in which the bytes of a failed copy become durable in place of the logged ones. */
  lemma FailedCopyCommitted() returns (ls: seq<Label>)
    ensures RecoversTo(Blank(1), Blank(1).home) && Legal(Start(Blank(1), 1), ls)
    ensures var s, h := Exec(Start(Blank(1), 1), ls), Story(Fresh(Blank(1).home), Start(Blank(1), 1), ls);
      && 0 in Durable(h) && Durable(h)[0] == V && s.disk.head == [0] && s.disk.slots == [W]
      && !RecoversTo(s.disk, Durable(h))
  {
    ls := LeadsCommitted();
    LoggedV();
  }
}
