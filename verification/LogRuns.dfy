/** What holds over whole runs of the log: durability, atomicity, coherence, reservations. */
module LogRuns {
  import opened LogMachine
  import opened LogSafety
  import opened Options

  /** Every label of the run is enabled when its turn comes. */
  ghost predicate Legal(s: State, ls: seq<Label>)
    decreases |ls|
  {
    ls == [] || (Enabled(s, ls[0]) && Legal(Next(s, ls[0]), ls[1..]))
  }

  ghost function Exec(s: State, ls: seq<Label>): State
    requires Legal(s, ls)
    decreases |ls|
  {
    if ls == [] then s else Exec(Next(s, ls[0]), ls[1..])
  }

  ghost function Story(h: History, s: State, ls: seq<Label>): (h': History)
    requires Legal(s, ls) && h.durable <= |h.trace|
    ensures h'.durable <= |h'.trace|
    decreases |ls|
  {
    if ls == [] then h else Story(Record(h, s, ls[0]), Next(s, ls[0]), ls[1..])
  }

  lemma {:induction false} InvRun(s: State, h: History, ls: seq<Label>)
    requires Inv(s, h) && Legal(s, ls)
    ensures Inv(Exec(s, ls), Story(h, s, ls))
    decreases |ls|
  {
    if ls != [] {
      InvStep(s, h, ls[0]);
      InvRun(Next(s, ls[0]), Record(h, s, ls[0]), ls[1..]);
    }
  }

  /** Nothing has happened since first boot. */
  function Fresh(base: Home): History {
    History(base, [], 0, map[], map[])
  }

  lemma InvStart(d: Disk, agents: nat, base: Home)
    requires RecoversTo(d, base)
    ensures Inv(Start(d, agents), Fresh(base))
  {
    UnusedBounds(Start(d, agents).agents);
    assert Overlay(base, map[]) == base;
  }

  // ----- the fate of a block, read off the labels of a run

  /**
   * `dirty` holds the current bytes of the block if they were not logged, `spoiled` the durable ones
   * if those were not; `logged` tells whether the block is in the log and not yet committed.
   */
  datatype Fate = Fate(dirty: Option<Block>, logged: bool, spoiled: Option<Block>)

  function After(f: Fate, b: nat, l: Label): Fate {
    match l
    case Modify(_, c, v) => if c == b then f.(dirty := Some(v)) else f
    case LogWrite(_, c) => if c == b then f.(dirty := None, logged := true) else f
    case Evict(c) => if c == b then f.(dirty := f.spoiled) else f
    case CommitHead => if f.logged then f.(logged := false, spoiled := f.dirty) else f
    case Crash => Fate(f.spoiled, false, f.spoiled)
    case _ => f
  }

  function FateFrom(f: Fate, ls: seq<Label>, b: nat): Fate
    decreases |ls|
  {
    if ls == [] then f else FateFrom(After(f, b, ls[0]), ls[1..], b)
  }

  function FateOf(ls: seq<Label>, b: nat): Fate {
    FateFrom(Fate(None, false, None), ls, b)
  }

  /** The bytes found where `logged` is due. */
  function Bytes(o: Option<Block>, logged: Block): Block {
    if o.Some? then o.value else logged
  }

  function Find(m: Home, b: nat): Option<Block> {
    if b in m then Some(m[b]) else None
  }

  ghost predicate Matches(s: State, h: History, f: Fate, b: nat) {
    && f.dirty == Find(h.loose, b) && f.spoiled == Find(h.spoiled, b)
    && (f.logged <==> (s.phase.Running? || s.phase.WritingLog?) && b in s.lh)
  }

  lemma FateStep(s: State, h: History, f: Fate, b: nat, l: Label)
    requires Matches(s, h, f, b) && Enabled(s, l) && InPhase(s) && h.durable <= |h.trace|
    requires l.LogWrite? ==> s.phase.Running?
    ensures Matches(Next(s, l), Record(h, s, l), After(f, b, l), b)
  {
  }

  lemma {:induction false} FateRun(s: State, h: History, f: Fate, ls: seq<Label>, b: nat)
    requires Inv(s, h) && Legal(s, ls) && Matches(s, h, f, b)
    ensures Matches(Exec(s, ls), Story(h, s, ls), FateFrom(f, ls, b), b)
    decreases |ls|
  {
    if ls != [] {
      StepKnown(s, h, ls[0]);
      FateStep(s, h, f, b, ls[0]);
      InvStep(s, h, ls[0]);
      FateRun(Next(s, ls[0]), Record(h, s, ls[0]), After(f, b, ls[0]), ls[1..], b);
    }
  }

  /** After any run from power-on the invariant holds, and the labels tell each block's fate. */
  lemma Reached(d: Disk, agents: nat, base: Home, ls: seq<Label>, b: nat)
    requires RecoversTo(d, base) && Legal(Start(d, agents), ls)
    ensures var s, h := Exec(Start(d, agents), ls), Story(Fresh(base), Start(d, agents), ls);
      Inv(s, h) && Matches(s, h, FateOf(ls, b), b)
  {
    InvStart(d, agents, base);
    InvRun(Start(d, agents), Fresh(base), ls);
    FateRun(Start(d, agents), Fresh(base), Fate(None, false, None), ls, b);
  }

  /** The recovered content is a function of the disk. */
  lemma RecoveredUnique(d: Disk, h1: Home, h2: Home)
    requires RecoversTo(d, h1) && RecoversTo(d, h2)
    ensures h1 == h2
  {
    forall b | b in h1 ensures h1[b] == h2[b] {
      if b in d.head {
        var i :| 0 <= i < |d.head| && d.head[i] == b;
      }
    }
  }

  /**
   * Crash atomicity.  After any run (with crashes anywhere, also during recovery) a crash right now
   * would leave the durable part of the history, which ends between operations, with exactly those
   * blocks changed whose bytes were changed after `log_write` and then committed.
   */
  lemma CrashAtomic(d: Disk, agents: nat, base: Home, ls: seq<Label>)
    requires RecoversTo(d, base) && Legal(Start(d, agents), ls)
    ensures var s, h := Exec(Start(d, agents), ls), Story(Fresh(base), Start(d, agents), ls);
      && RecoversTo(s.disk, Kept(h)) && Open(h.trace[..h.durable]) == {}
      && Kept(h).Keys == Durable(h).Keys
      && (forall b :: b in Kept(h) ==> Kept(h)[b] == Bytes(FateOf(ls, b).spoiled, Durable(h)[b]))
  {
    var s, h := Exec(Start(d, agents), ls), Story(Fresh(base), Start(d, agents), ls);
    Reached(d, agents, base, ls, 0);
    forall b | b in Kept(h) ensures Kept(h)[b] == Bytes(FateOf(ls, b).spoiled, Durable(h)[b]) {
      Reached(d, agents, base, ls, b);
    }
  }

  /** A crash leaves exactly the durable operations just when no commit copied bytes other than the logged ones. */
  lemma CrashExact(d: Disk, agents: nat, base: Home, ls: seq<Label>)
    requires RecoversTo(d, base) && Legal(Start(d, agents), ls)
    ensures var s, h := Exec(Start(d, agents), ls), Story(Fresh(base), Start(d, agents), ls);
      RecoversTo(s.disk, Durable(h)) <==>
        forall b :: b in Durable(h) && FateOf(ls, b).spoiled.Some? ==> FateOf(ls, b).spoiled.value == Durable(h)[b]
  {
    var s, h := Exec(Start(d, agents), ls), Story(Fresh(base), Start(d, agents), ls);
    CrashAtomic(d, agents, base, ls);
    if RecoversTo(s.disk, Durable(h)) {
      RecoveredUnique(s.disk, Durable(h), Kept(h));
    }
    assert (forall b :: b in Durable(h) ==> Kept(h)[b] == Durable(h)[b]) ==> Kept(h) == Durable(h);
  }

  /** Once operations may run, every block reads as last logged, except for bytes changed since and still cached. */
  lemma ReadsCurrent(d: Disk, agents: nat, base: Home, ls: seq<Label>, b: nat)
    requires RecoversTo(d, base) && Legal(Start(d, agents), ls)
    ensures var s, h := Exec(Start(d, agents), ls), Story(Fresh(base), Start(d, agents), ls);
      s.phase.Running? && b in s.disk.home ==>
        && b in Volatile(h) && Look(s.cache, s.disk.home, b) == Bytes(FateOf(ls, b).dirty, Volatile(h)[b])
        && b in Durable(h) && s.disk.home[b] == Bytes(FateOf(ls, b).spoiled, Durable(h)[b])
  {
    Reached(d, agents, base, ls, b);
  }

  /** Durability: what is durable stays a prefix of what is durable later, and only a header write extends it. */
  lemma {:induction false} DurableGrows(s: State, h: History, ls: seq<Label>)
    requires h.durable <= |h.trace| && Legal(s, ls)
    ensures var h' := Story(h, s, ls); h.trace[..h.durable] <= h'.trace[..h'.durable]
    ensures CommitHead !in ls ==> Story(h, s, ls).trace[..Story(h, s, ls).durable] == h.trace[..h.durable]
    decreases |ls|
  {
    if ls != [] {
      var g := Record(h, s, ls[0]);
      DurableGrows(Next(s, ls[0]), g, ls[1..]);
      assert g.trace[..h.durable] == h.trace[..h.durable];
      assert CommitHead !in ls ==> CommitHead !in ls[1..] && ls[0] != CommitHead;
    }
  }

  // ----- each operation is wholly in or wholly out

  ghost predicate Bracketed(trace: seq<Event>) {
    forall i :: 0 <= i < |trace| && trace[i].Wrote? ==> trace[i].a in Open(trace[..i])
  }

  lemma {:induction false} BracketedRun(s: State, h: History, ls: seq<Label>)
    requires Inv(s, h) && Legal(s, ls) && Bracketed(h.trace)
    ensures Bracketed(Story(h, s, ls).trace)
    decreases |ls|
  {
    if ls != [] {
      InvStep(s, h, ls[0]);
      BracketedStep(s, h, ls[0]);
      BracketedRun(Next(s, ls[0]), Record(h, s, ls[0]), ls[1..]);
    }
  }

  lemma BracketedStep(s: State, h: History, l: Label)
    requires Inv(s, h) && Enabled(s, l) && Bracketed(h.trace)
    ensures Bracketed(Record(h, s, l).trace)
  {
    var g := Record(h, s, l);
    forall i | 0 <= i < |g.trace| && g.trace[i].Wrote? ensures g.trace[i].a in Open(g.trace[..i]) {
      if i < |h.trace| {
        assert g.trace[..i] == h.trace[..i];
      } else {
        assert g.trace[..i] == h.trace;
      }
    }
  }

  lemma {:induction false} OpenUntilEnded(trace: seq<Event>, i: nat, a: nat)
    requires i <= |trace| && a in Open(trace[..i])
    requires forall j :: i <= j < |trace| ==> trace[j] != Ended(a)
    ensures a in Open(trace)
    decreases |trace|
  {
    if i < |trace| {
      var t := trace[..|trace| - 1];
      assert t[..i] == trace[..i];
      OpenUntilEnded(t, i, a);
    } else {
      assert trace[..i] == trace;
    }
  }

  /** A durable write belongs to an operation whose end is durable as well. */
  lemma OperationsWhole(d: Disk, agents: nat, base: Home, ls: seq<Label>, i: nat)
    requires RecoversTo(d, base) && Legal(Start(d, agents), ls)
    requires var h := Story(Fresh(base), Start(d, agents), ls);
      i < h.durable && h.trace[i].Wrote?
    ensures var h := Story(Fresh(base), Start(d, agents), ls);
      exists j :: i < j < h.durable && h.trace[j] == Ended(h.trace[i].a)
  {
    var h0 := Fresh(base);
    InvStart(d, agents, base);
    InvRun(Start(d, agents), h0, ls);
    BracketedRun(Start(d, agents), h0, ls);
    var h := Story(h0, Start(d, agents), ls);
    var t, a := h.trace[..h.durable], h.trace[i].a;
    assert t[..i] == h.trace[..i];
    if forall j :: i < j < h.durable ==> h.trace[j] != Ended(a) {
      OpenUntilEnded(t, i, a);
    }
  }

  // ----- cache and pins

  lemma PinnedState(s: State, h: History, b: nat)
    requires Inv(s, h)
    ensures Pins(s.pins, b) == if b in Pinned(s.phase, s.lh) then 1 else 0
    ensures b in Pinned(s.phase, s.lh) ==> b in s.cache
    ensures b in s.cache && Pins(s.pins, b) == 0 ==>
      && b in s.disk.home && b in Now(h) && b in Kept(h) && Volatile(h)[b] == Durable(h)[b]
      && (s.cache[b] == s.disk.home[b] <==> Now(h)[b] == Kept(h)[b])
  {
    if s.phase.Installing? && b in s.cache && b !in Pinned(s.phase, s.lh) {
      UnpinnedKept(s.disk, Kept(h), s.lh, s.phase.done, b);
    }
  }

  /**
   * In every reachable state: a logged block that is not yet installed is cached under exactly one
   * pin and nothing else is pinned.  Any other buffer equals its disk block just when its bytes,
   * if changed without being logged, are those last committed.
   */
  lemma CachePinned(d: Disk, agents: nat, base: Home, ls: seq<Label>, b: nat)
    requires RecoversTo(d, base) && Legal(Start(d, agents), ls)
    ensures var s, h, f := Exec(Start(d, agents), ls), Story(Fresh(base), Start(d, agents), ls), FateOf(ls, b);
      && Pins(s.pins, b) == (if b in Pinned(s.phase, s.lh) then 1 else 0)
      && (b in Pinned(s.phase, s.lh) ==> b in s.cache)
      && (b in s.cache && Pins(s.pins, b) == 0 ==>
            && b in s.disk.home && b in Durable(h)
            && (s.cache[b] == s.disk.home[b] <==> Bytes(f.dirty, Durable(h)[b]) == Bytes(f.spoiled, Durable(h)[b])))
  {
    Reached(d, agents, base, ls, b);
    PinnedState(Exec(Start(d, agents), ls), Story(Fresh(base), Start(d, agents), ls), b);
  }

  /**
   * `write_log` runs without open operations.  It copies the bytes logged last just when the buffer was
   * not changed since, or changed back.
   */
  lemma CopiesLastLogged(d: Disk, agents: nat, base: Home, ls: seq<Label>)
    requires RecoversTo(d, base) && Legal(Start(d, agents), ls)
    requires Enabled(Exec(Start(d, agents), ls), WriteLogBlock)
    ensures var s, h := Exec(Start(d, agents), ls), Story(Fresh(base), Start(d, agents), ls);
      var b := s.lh[s.phase.done];
      var o, copied := FateOf(ls, b).dirty, Next(s, WriteLogBlock).disk.slots[s.phase.done];
      && Open(h.trace) == {} && b in Volatile(h)
      && copied == Bytes(o, Volatile(h)[b])
      && (copied == Volatile(h)[b] <==> o.None? || o.value == Volatile(h)[b])
  {
    var s := Exec(Start(d, agents), ls);
    Reached(d, agents, base, ls, s.lh[s.phase.done]);
    UnusedBounds(s.agents);
  }

  // ----- reservations

  /** Log entries and unused reservations together never exceed LOGSIZE; entries stay distinct. */
  lemma ReservationHolds(d: Disk, agents: nat, base: Home, ls: seq<Label>)
    requires RecoversTo(d, base) && Legal(Start(d, agents), ls)
    ensures var s := Exec(Start(d, agents), ls);
      && |s.lh| + Unused(s.agents) <= LOGSIZE && s.outstanding == Active(s.agents)
      && (forall i, j :: 0 <= i < j < |s.lh| ==> s.lh[i] != s.lh[j])
  {
    InvStart(d, agents, base);
    InvRun(Start(d, agents), Fresh(base), ls);
  }

  /** An operation with reservation left does not make `log_write` panic, if the log has LOGSIZE data blocks. */
  lemma ReservedNeverPanics(d: Disk, agents: nat, base: Home, ls: seq<Label>, a: nat)
    requires RecoversTo(d, base) && Legal(Start(d, agents), ls) && |d.slots| >= LOGSIZE
    requires var s := Exec(Start(d, agents), ls); InOp(s, a) && s.agents[a].added < MAXOPBLOCKS
    ensures !LogWritePanics(Exec(Start(d, agents), ls))
  {
    InvStart(d, agents, base);
    InvRun(Start(d, agents), Fresh(base), ls);
    SlotsKept(Start(d, agents), ls);
    UnusedBounds(Exec(Start(d, agents), ls).agents);
  }

  lemma {:induction false} SlotsKept(s: State, ls: seq<Label>)
    requires Legal(s, ls)
    ensures |Exec(s, ls).disk.slots| == |s.disk.slots|
    decreases |ls|
  {
    if ls != [] { SlotsKept(Next(s, ls[0]), ls[1..]); }
  }

  // ----- a log with fewer than LOGSIZE data blocks

  const ZERO := Block([])

  function Upto<T>(k: nat, v: T): (m: map<nat, T>)
    ensures forall b :: b in m <==> 0 <= b < k
    ensures forall b :: b in m ==> m[b] == v
  {
    if k == 0 then map[] else Upto(k - 1, v)[k - 1 := v]
  }

  function Ids(k: nat): (r: seq<nat>)
    ensures |r| == k && forall b :: b in r <==> 0 <= b < k
  {
    if k == 0 then [] else Ids(k - 1) + [k - 1]
  }

  function Blank(slots: nat): Disk {
    Disk([], seq(slots, _ => ZERO), Upto(LOGSIZE, ZERO))
  }

  function Used(a: nat, k: nat): Agent {
    if k <= 10 * a then Inside(0) else if k >= 10 * a + 10 then Inside(10) else Inside(k - 10 * a)
  }

  /** Three operations have begun and logged blocks 0..k, the first ten by process 0, and so on. */
  function Filled(slots: nat, k: nat): State
    requires k <= LOGSIZE
  {
    State(Blank(slots), Upto(k, ZERO), Ids(k), Upto(k, 1), map[], {},
          [Used(0, k), Used(1, k), Used(2, k)], 3, Running)
  }

  lemma {:induction false} LegalJoin(s: State, xs: seq<Label>, ys: seq<Label>)
    requires Legal(s, xs) && Legal(Exec(s, xs), ys)
    ensures Legal(s, xs + ys) && Exec(s, xs + ys) == Exec(Exec(s, xs), ys)
    decreases |xs|
  {
    if xs == [] {
      assert xs + ys == ys;
    } else {
      var zs, t := xs + ys, Next(s, xs[0]);
      assert zs != [] && zs[0] == xs[0] && zs[1..] == xs[1..] + ys;
      LegalJoin(t, xs[1..], ys);
    }
  }

  lemma LegalOne(s: State, l: Label)
    requires Enabled(s, l)
    ensures Legal(s, [l]) && Exec(s, [l]) == Next(s, l)
  {
    assert Legal(Next(s, l), []);
    assert [l][1..] == [];
  }

  lemma LegalThree(s: State, l: Label, m: Label, n: Label)
    requires Enabled(s, l) && Enabled(Next(s, l), m) && Enabled(Next(Next(s, l), m), n)
    ensures Legal(s, [l, m, n]) && Exec(s, [l, m, n]) == Next(Next(Next(s, l), m), n)
  {
    LegalOne(s, l);
    LegalOne(Next(s, l), m);
    LegalOne(Next(Next(s, l), m), n);
    LegalJoin(s, [l], [m]);
    LegalJoin(s, [l] + [m], [n]);
    assert [l] + [m] + [n] == [l, m, n];
  }

  function Held(slots: nat, k: nat): State
    requires k < LOGSIZE
  {
    Filled(slots, k).(cache := Upto(k + 1, ZERO), locked := map[k := k / 10])
  }

  lemma FillBread(slots: nat, k: nat)
    requires k < LOGSIZE
    ensures Enabled(Filled(slots, k), Bread(k / 10, k))
    ensures Next(Filled(slots, k), Bread(k / 10, k)) == Held(slots, k)
  {
  }

  lemma FillWrite(slots: nat, k: nat)
    requires k < slots && k < LOGSIZE
    ensures Enabled(Held(slots, k), LogWrite(k / 10, k))
    ensures Next(Held(slots, k), LogWrite(k / 10, k)) == Filled(slots, k + 1).(locked := map[k := k / 10])
  {
    var s, a := Held(slots, k), k / 10;
    FillUsed(k, a);
    FillLists(k);
    assert s.agents[a] == Used(a, k);
    assert AfterLogWrite(s, a, k) == Filled(slots, k + 1).(locked := map[k := a]);
  }

  lemma FillUsed(k: nat, a: nat)
    requires k < LOGSIZE && a == k / 10
    ensures a < 3 && Used(a, k).added < 10
    ensures [Used(0, k), Used(1, k), Used(2, k)][a := Inside(Used(a, k).added + 1)] ==
      [Used(0, k + 1), Used(1, k + 1), Used(2, k + 1)]
  {
  }

  lemma FillLists(k: nat)
    ensures k !in Ids(k) && Pins(Upto(k, 1), k) == 0
    ensures Ids(k) + [k] == Ids(k + 1) && Upto(k, 1)[k := 1] == Upto(k + 1, 1)
  {
  }

  lemma FillOne(slots: nat, k: nat)
    requires k < slots && k < LOGSIZE
    ensures var ls := [Bread(k / 10, k), LogWrite(k / 10, k), Brelse(k / 10, k)];
      Legal(Filled(slots, k), ls) && Exec(Filled(slots, k), ls) == Filled(slots, k + 1)
  {
    var a := k / 10;
    FillBread(slots, k);
    FillWrite(slots, k);
    assert map[k := a] - {k} == map[];
    LegalThree(Filled(slots, k), Bread(a, k), LogWrite(a, k), Brelse(a, k));
  }

  function Idle(slots: nat): State {
    Start(Blank(slots), 3).(phase := Running)
  }

  lemma Boot(slots: nat)
    ensures Legal(Start(Blank(slots), 3), [ReadHead, RecoverDone])
    ensures Exec(Start(Blank(slots), 3), [ReadHead, RecoverDone]) == Idle(slots)
  {
    var s0 := Start(Blank(slots), 3);
    var s1 := s0.(phase := Recovering(0));
    LegalOne(s0, ReadHead);
    LegalOne(s1, RecoverDone);
    LegalJoin(s0, [ReadHead], [RecoverDone]);
    assert [ReadHead] + [RecoverDone] == [ReadHead, RecoverDone];
  }

  lemma BeginThree(slots: nat) returns (ls: seq<Label>)
    ensures Legal(Start(Blank(slots), 3), ls) && Exec(Start(Blank(slots), 3), ls) == Filled(slots, 0)
  {
    var s := Idle(slots);
    var t1 := s.(agents := [Inside(0), Outside, Outside], outstanding := 1);
    var t2 := s.(agents := [Inside(0), Inside(0), Outside], outstanding := 2);
    assert Next(s, Begin(0)) == t1;
    assert Next(t1, Begin(1)) == t2;
    LegalThree(s, Begin(0), Begin(1), Begin(2));
    Boot(slots);
    ls := [ReadHead, RecoverDone] + [Begin(0), Begin(1), Begin(2)];
    LegalJoin(Start(Blank(slots), 3), [ReadHead, RecoverDone], [Begin(0), Begin(1), Begin(2)]);
  }

  lemma {:induction false} FillLog(slots: nat, k: nat) returns (ls: seq<Label>)
    requires k <= slots && k <= LOGSIZE
    ensures Legal(Start(Blank(slots), 3), ls) && Exec(Start(Blank(slots), 3), ls) == Filled(slots, k)
  {
    if k == 0 {
      ls := BeginThree(slots);
    } else {
      var xs := FillLog(slots, k - 1);
      FillOne(slots, k - 1);
      var a := (k - 1) / 10;
      var ys := [Bread(a, k - 1), LogWrite(a, k - 1), Brelse(a, k - 1)];
      LegalJoin(Start(Blank(slots), 3), xs, ys);
      ls := xs + ys;
    }
  }

  ghost predicate Reaches(slots: nat, s: State) {
    exists ls :: Legal(Start(Blank(slots), 3), ls) && Exec(Start(Blank(slots), 3), ls) == s
  }

  /** A state in which some operation within its reservation cannot log another block. */
  ghost predicate Overrun(s: State, a: nat) {
    InOp(s, a) && s.agents[a].added < MAXOPBLOCKS && LogWritePanics(s)
  }

  /**
   * The reservation of `begin_op` protects the log exactly when the log has LOGSIZE data
   * blocks, that is when `log.size` is at least LOGSIZE + 1.
   */
  lemma ReservationExact(slots: nat)
    ensures (exists s, a: nat :: Reaches(slots, s) && Overrun(s, a)) <==> slots < LOGSIZE
  {
    if slots < LOGSIZE {
      var ls := FillLog(slots, slots);
      assert Reaches(slots, Filled(slots, slots));
      assert Overrun(Filled(slots, slots), slots / 10);
    } else {
      forall s, a: nat | Reaches(slots, s) && a < |s.agents| ensures !Overrun(s, a) {
        var ls :| Legal(Start(Blank(slots), 3), ls) && Exec(Start(Blank(slots), 3), ls) == s;
        assert RecoversTo(Blank(slots), Blank(slots).home);
        if InOp(s, a) && s.agents[a].added < MAXOPBLOCKS {
          ReservedNeverPanics(Blank(slots), 3, Blank(slots).home, ls, a);
        }
      }
    }
  }

  /** With LOGSIZE blocks logged, even a write that would be absorbed panics: the tests come first. */
  lemma AbsorbingCanPanic(slots: nat)
    requires slots >= LOGSIZE
    ensures exists s :: Reaches(slots, s) && InOp(s, 0) && 0 in s.lh && LogWritePanics(s)
  {
    var ls := FillLog(slots, LOGSIZE);
    assert Reaches(slots, Filled(slots, LOGSIZE));
    assert 0 in Ids(LOGSIZE);
  }
}
