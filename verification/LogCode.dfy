/**
 * The code of kernel/log.c over a flat device: header block, log blocks and home blocks live in
 * one array of blocks, and every method is shown to take exactly the steps of the log machine.
 */
module LogCode {
  import opened LogMachine
  import opened LogSafety
  import opened LogRuns

  const BLOCK_WORDS := 256

  /** The block can be read as a header: a count and that many block numbers. */
  predicate IsHeader(hb: Block) {
    |hb.words| == BLOCK_WORDS && hb.words[0] <= LOGSIZE
  }

  function Entries(hb: Block): seq<nat>
    requires IsHeader(hb)
  {
    hb.words[1..1 + hb.words[0]]
  }

  /** `log.start`, `log.size` (header included), and the number of blocks of the device. */
  datatype Layout = Layout(start: nat, size: nat, total: nat) {
    predicate Valid() { 1 <= size && start + size <= total }

    predicate IsHome(b: nat) { b < total && !(start <= b < start + size) }
  }

  /** The three parts of a flat device. */
  function HomePart(lay: Layout, m: map<nat, Block>): Home {
    map b | b in m && lay.IsHome(b) :: m[b]
  }

  function Homes(lay: Layout, dev: seq<Block>): Home
    requires |dev| == lay.total
  {
    map b: nat | 0 <= b < |dev| && lay.IsHome(b) :: dev[b]
  }

  function Split(lay: Layout, dev: seq<Block>): Disk
    requires lay.Valid() && |dev| == lay.total && IsHeader(dev[lay.start])
  {
    Disk(Entries(dev[lay.start]), dev[lay.start + 1..lay.start + lay.size], Homes(lay, dev))
  }

  lemma SplitSlot(lay: Layout, dev: seq<Block>, i: nat, v: Block)
    requires lay.Valid() && |dev| == lay.total && IsHeader(dev[lay.start]) && i < lay.size - 1
    ensures var d := Split(lay, dev);
      Split(lay, dev[lay.start + 1 + i := v]) == d.(slots := d.slots[i := v])
  {
    var dev' := dev[lay.start + 1 + i := v];
    assert Homes(lay, dev') == Homes(lay, dev);
  }

  lemma SplitHead(lay: Layout, dev: seq<Block>, hb: Block)
    requires lay.Valid() && |dev| == lay.total && IsHeader(dev[lay.start]) && IsHeader(hb)
    ensures Split(lay, dev[lay.start := hb]) == Split(lay, dev).(head := Entries(hb))
  {
    assert Homes(lay, dev[lay.start := hb]) == Homes(lay, dev);
  }

  lemma SplitHome(lay: Layout, dev: seq<Block>, b: nat, v: Block)
    requires lay.Valid() && |dev| == lay.total && IsHeader(dev[lay.start]) && lay.IsHome(b)
    ensures var d := Split(lay, dev);
      Split(lay, dev[b := v]) == d.(home := d.home[b := v])
  {
    var dev' := dev[b := v];
    assert Homes(lay, dev') == Homes(lay, dev)[b := v];
  }

  lemma CachedPut(lay: Layout, m: map<nat, Block>, b: nat, v: Block)
    ensures lay.IsHome(b) ==> HomePart(lay, m[b := v]) == HomePart(lay, m)[b := v]
    ensures !lay.IsHome(b) ==> HomePart(lay, m[b := v]) == HomePart(lay, m)
  {
  }

  // ----- the labels of the code's loops

  function Repeat(l: Label, k: nat): seq<Label> {
    seq(k, _ => l)
  }

  /** `commit()` with `n` logged blocks. */
  function CommitRun(n: nat): seq<Label> {
    if n == 0 then [] else Repeat(WriteLogBlock, n) + [CommitHead] + Repeat(InstallBlock, n) + [ClearHead]
  }

  function RecoverRun(n: nat): seq<Label> {
    [ReadHead] + Repeat(RecoverBlock, n) + [RecoverDone]
  }

  function InstallLabel(recovering: bool): Label {
    if recovering then RecoverBlock else InstallBlock
  }

  function InstallPhase(recovering: bool, k: nat): Phase {
    if recovering then Recovering(k) else Installing(k)
  }

  /** No logged buffer is held by a reader, so that `bread` need not wait. */
  ghost predicate Unheld(s: State) {
    forall i :: 0 <= i < |s.lh| ==> s.lh[i] !in s.locked
  }

  /** The steps without the releases that were waited for. */
  function Own(ls: seq<Label>): seq<Label> {
    if ls == [] then []
    else Own(ls[..|ls| - 1]) + if ls[|ls| - 1].Brelse? then [] else [ls[|ls| - 1]]
  }

  /** The run leads from `s` to `t`, with the steps `own` and releases in between; with none if none was needed. */
  ghost predicate Does(s: State, run: seq<Label>, t: State, own: seq<Label>) {
    && Legal(s, run) && Exec(s, run) == t && Own(run) == own
    && (Unheld(s) ==> run == own)
  }

  lemma {:induction false} OwnJoin(a: seq<Label>, b: seq<Label>)
    ensures Own(a + b) == Own(a) + Own(b)
    decreases |b|
  {
    if b == [] {
      assert a + b == a;
    } else {
      var c := b[..|b| - 1];
      assert (a + b)[..|a + b| - 1] == a + c;
      OwnJoin(a, c);
    }
  }

  lemma DoesJoin(s: State, r1: seq<Label>, t: State, own1: seq<Label>, r2: seq<Label>, u: State, own2: seq<Label>)
    requires Does(s, r1, t, own1) && Does(t, r2, u, own2) && (Unheld(s) ==> Unheld(t))
    ensures Does(s, r1 + r2, u, own1 + own2)
  {
    LegalJoin(s, r1, r2);
    OwnJoin(r1, r2);
  }

  lemma DoesOne(s: State, l: Label)
    requires Enabled(s, l) && !l.Brelse?
    ensures Does(s, [l], Next(s, l), [l])
  {
    LegalOne(s, l);
    assert [l][..0] == [];
  }

  class Log {
    const lay: Layout
    var dev: seq<Block>            // the disk
    var cache: map<nat, Block>     // valid buffers
    var pins: map<nat, nat>        // `bpin` references
    var lh: seq<nat>               // log.lh.block[0..log.lh.n]
    var outstanding: nat
    var committing: bool

    ghost var st: State            // the same, as a state of the machine

    /** `st` describes the concrete fields, and logged blocks lie outside the log area. */
    ghost predicate Valid()
      reads this
    {
      && lay.Valid() && |dev| == lay.total && IsHeader(dev[lay.start])
      && (forall b :: b in cache ==> b < lay.total)
      && (forall b :: b in cache && !lay.IsHome(b) ==> cache[b] == dev[b])
      && |lh| <= LOGSIZE && |lh| < lay.size && (forall i :: 0 <= i < |lh| ==> lay.IsHome(lh[i]))
      && st.disk == Split(lay, dev) && st.cache == HomePart(lay, cache)
      && st.pins == pins && st.lh == lh && st.outstanding == outstanding
      && (committing <==> st.phase.WritingLog? || st.phase.Installing? || st.phase.Committed?)
    }

    /** Power-on with some disk and an empty cache, before recovery. */
    constructor (lay: Layout, dev: seq<Block>, agents: nat)
      requires lay.Valid() && |dev| == lay.total && IsHeader(dev[lay.start])
      ensures Valid() && st == Start(Split(lay, dev), agents)
    {
      this.lay := lay;
      this.dev := dev;
      cache, pins, lh, outstanding, committing := map[], map[], [], 0, false;
      st := Start(Split(lay, dev), agents);
    }

    /** What `bread` delivers. */
    function Bread(b: nat): Block
      requires b < |dev|
      reads this
    {
      if b in cache then cache[b] else dev[b]
    }

    method WriteHead() returns (ghost hb: Block)
      requires lay.Valid() && |dev| == lay.total && IsHeader(Bread(lay.start)) && |lh| <= LOGSIZE
      modifies this`dev, this`cache
      ensures IsHeader(hb) && Entries(hb) == lh
      ensures forall w :: |lh| < w < BLOCK_WORDS ==> hb.words[w] == old(Bread(lay.start)).words[w]
      ensures dev == old(dev)[lay.start := hb] && cache == old(cache)[lay.start := hb]
    {
      var ws := Bread(lay.start).words[0 := |lh|];
      ghost var ws0 := ws;
      for i := 0 to |lh|
        invariant |ws| == BLOCK_WORDS && ws[0] == |lh|
        invariant forall j :: 0 <= j < i ==> ws[1 + j] == lh[j]
        invariant forall w :: i < w < BLOCK_WORDS ==> ws[w] == ws0[w]
      {
        ws := ws[1 + i := lh[i]];
      }
      hb := Block(ws);
      assert Entries(hb) == lh;
      dev, cache := dev[lay.start := Block(ws)], cache[lay.start := Block(ws)];
    }

    /** `bread` of a block that somebody holds waits for its release. */
    ghost method Await(b: nat) returns (run: seq<Label>)
      requires Valid()
      modifies this`st
      ensures Valid() && st == old(st).(locked := old(st).locked - {b})
      ensures Legal(old(st), run) && Exec(old(st), run) == st && Own(run) == []
      ensures b !in old(st).locked ==> run == [] && st == old(st)
    {
      run := [];
      if b in st.locked {
        run := [Brelse(st.locked[b], b)];
        LegalOne(st, run[0]);
        assert run[..0] == [];
        st := st.(locked := st.locked - {b});
      } else {
        assert st.locked - {b} == st.locked;
      }
    }

    /** `write_log`: the steps of the machine, with the releases it has to wait for. */
    method WriteLog() returns (ghost run: seq<Label>)
      requires Valid() && st.phase == WritingLog(0)
      modifies this`dev, this`cache, this`st
      ensures Valid() && st.phase == WritingLog(|lh|) && (Unheld(old(st)) ==> Unheld(st))
      ensures Does(old(st), run, st, Repeat(WriteLogBlock, |lh|))
    {
      ghost var s0 := st;
      run := [];
      assert Repeat(WriteLogBlock, 0) == [];
      for tail := 0 to |lh|
        invariant Valid() && st.phase == WritingLog(tail) && (Unheld(s0) ==> Unheld(st))
        invariant Does(s0, run, st, Repeat(WriteLogBlock, tail))
      {
        ghost var s1, wait := st, [];
        wait := Await(lh[tail]);
        WriteSlotNext(st, tail);
        DoesTurn(s0, run, s1, wait, st, WriteLogBlock, tail, lh[tail]);
        run := run + (wait + [WriteLogBlock]);
        LogOne(tail);
      }
    }

    /** One turn of the loop of `write_log`. */
    method LogOne(tail: nat)
      requires Valid() && tail < |lh| && st.phase == WritingLog(tail)
      modifies this`dev, this`cache, this`st
      ensures Valid() && lh[tail] in old(st).disk.home
      ensures st == LogCopied(old(st), tail).(phase := WritingLog(tail + 1))
    {
      var v := Bread(lh[tail]);
      WriteSlot(tail, v);
      st := st.(phase := WritingLog(tail + 1));
    }

    /** `install_trans`: `recovering` tells whether pins are left alone. */
    method InstallTrans(recovering: bool) returns (ghost run: seq<Label>)
      requires Valid() && st.phase == InstallPhase(recovering, 0)
      modifies this`dev, this`cache, this`pins, this`st
      ensures Valid() && st.phase == InstallPhase(recovering, |lh|) && (Unheld(old(st)) ==> Unheld(st))
      ensures Does(old(st), run, st, Repeat(InstallLabel(recovering), |lh|))
      ensures recovering ==> run == Repeat(RecoverBlock, |lh|)
    {
      ghost var s0 := st;
      run := [];
      assert Repeat(InstallLabel(recovering), 0) == [];
      for tail := 0 to |lh|
        invariant Valid() && st.phase == InstallPhase(recovering, tail) && (Unheld(s0) ==> Unheld(st))
        invariant Does(s0, run, st, Repeat(InstallLabel(recovering), tail))
        invariant recovering ==> run == Repeat(RecoverBlock, tail)
      {
        run := InstallTurn(s0, run, recovering, tail);
        assert Repeat(RecoverBlock, tail + 1) == Repeat(RecoverBlock, tail) + [RecoverBlock];
      }
    }

    /** One turn as a step of the machine. */
    method InstallTurn(ghost s0: State, ghost run: seq<Label>, recovering: bool, tail: nat)
      returns (ghost run': seq<Label>)
      requires Valid() && tail < |lh| && st.phase == InstallPhase(recovering, tail) && (Unheld(s0) ==> Unheld(st))
      requires Does(s0, run, st, Repeat(InstallLabel(recovering), tail))
      modifies this`dev, this`cache, this`pins, this`st
      ensures Valid() && st.phase == InstallPhase(recovering, tail + 1) && (Unheld(s0) ==> Unheld(st))
      ensures Does(s0, run', st, Repeat(InstallLabel(recovering), tail + 1))
      ensures recovering ==> run' == run + [RecoverBlock]
    {
      ghost var s1, l, wait := st, InstallLabel(recovering), [];
      if !recovering {
        wait := Await(lh[tail]);
      }
      InstallNext(st, recovering, tail);
      DoesTurn(s0, run, s1, wait, st, l, tail, lh[tail]);
      run' := run + (wait + [l]);
      InstallOne(recovering, tail);
    }

    /** One turn of the loop of `install_trans`. */
    method InstallOne(recovering: bool, tail: nat)
      requires Valid() && tail < |lh| && st.phase == InstallPhase(recovering, tail)
      modifies this`dev, this`cache, this`pins, this`st
      ensures Valid()
      ensures st == Installed(old(st), tail).(
        pins := if recovering then old(pins)
            else Unpin(old(pins), lh[tail]), phase := InstallPhase(recovering, tail + 1))
    {
      var v := Bread(lay.start + 1 + tail);
      assert v == st.disk.slots[tail];
      WriteHome(lh[tail], v);
      if !recovering {
        pins := Unpin(pins, lh[tail]);
      }
      st := st.(pins := pins, phase := InstallPhase(recovering, tail + 1));
    }

    method Commit() returns (ghost run: seq<Label>)
      requires Valid() && st.phase == WritingLog(0)
      modifies this`dev, this`cache, this`pins, this`lh, this`st
      ensures Valid() && lh == [] && Unheld(st)
      ensures st.phase == if old(lh) == [] then WritingLog(0) else Committed
      ensures Does(old(st), run, st, CommitRun(|old(lh)|))
    {
      run := [];
      if |lh| > 0 {
        ghost var r1 := WriteLog();
        ghost var s1 := st;
        CommitPoint();
        ghost var s2 := st;
        ghost var r2 := InstallTrans(false);
        ghost var s3 := st;
        ClearHead(false);
        run := CommitJoins(old(st), r1, s1, s2, r2, s3, |old(lh)|);
      }
    }

    method ReadHead()
      requires Valid() && st.phase == Booting
      modifies this`lh, this`st
      ensures Enabled(old(st), LogMachine.ReadHead) && st == Next(old(st), LogMachine.ReadHead) && lh == st.lh
    {
      var hb := Bread(lay.start);
      var n := hb.words[0];
      lh := [];
      for i := 0 to n
        invariant lh == hb.words[1..1 + i] && st == old(st)
      {
        lh := lh + [hb.words[1 + i]];
      }
      assert !lay.IsHome(lay.start);
      assert lh == st.disk.head;
      st := st.(lh := lh, phase := Recovering(0));
    }

    /** `recover_from_log`, on a disk whose header this code has written. */
    method RecoverFromLog()
      requires Valid() && st.phase == Booting
      requires GoodEntries(st.disk.home.Keys, |st.disk.slots|, st.disk.head)
      modifies this`dev, this`cache, this`pins, this`lh, this`st
      ensures Valid() && st.phase == Running && lh == []
      ensures var n := |old(st).disk.head|; Legal(old(st), RecoverRun(n)) && st == Exec(old(st), RecoverRun(n))
    {
      ReadHead();
      assert forall i :: 0 <= i < |lh| ==> lh[i] in Homes(lay, dev);
      ghost var s1 := st;
      ghost var run := InstallTrans(true);
      ghost var s2 := st;
      ClearHead(true);
      RecoverJoins(old(st), s1, s2);
    }

    /** `begin_op`: false means the caller sleeps and tries again. */
    method BeginOp(a: nat) returns (ok: bool)
      requires Valid() && a < |st.agents| && st.agents[a].Outside? && !st.phase.Booting? && !st.phase.Recovering?
      modifies this`outstanding, this`st
      ensures Valid() && ok == !BeginMustWait(old(st))
      ensures ok ==> Enabled(old(st), Begin(a)) && st == Next(old(st), Begin(a))
      ensures !ok ==> st == old(st)
    {
      if committing {
        ok := false;
      } else if |lh| + (outstanding + 1) * MAXOPBLOCKS > LOGSIZE {
        ok := false;
      } else {
        outstanding := outstanding + 1;
        st := st.(agents := st.agents[a := Inside(0)], outstanding := outstanding);
        ok := true;
      }
    }

    /** `log_write` by a process holding the buffer: false means panic. */
    method LogWrite(a: nat, b: nat) returns (ok: bool)
      requires Valid() && InOp(st, a) && Holds(st, a, b) && b in st.cache
      requires b in lh || st.agents[a].added < MAXOPBLOCKS
      modifies this`lh, this`pins, this`st
      ensures ok == !LogWritePanics(old(st))
      ensures ok ==> Valid() && Enabled(old(st), LogMachine.LogWrite(a, b))
      ensures ok ==> st == Next(old(st), LogMachine.LogWrite(a, b))
      ensures !ok ==> st == old(st)
    {
      if |lh| >= LOGSIZE || |lh| >= lay.size - 1 {
        return false;
      }
      var i := 0;
      while i < |lh| && lh[i] != b
        invariant 0 <= i <= |lh| && b !in lh[..i]
      {
        i := i + 1;
      }
      if i < |lh| {
        lh := lh[i := b];   // log absorption
        st := st.(unlogged := st.unlogged - {b});
      } else {
        assert lh[..i] == lh;
        lh := lh + [b];
        pins := pins[b := Pins(pins, b) + 1];
        st := st.(lh := lh, pins := pins, unlogged := st.unlogged - {b},
                  agents := st.agents[a := Inside(st.agents[a].added + 1)]);
      }
      ok := true;
    }

    /** `end_op`: the last operation to end commits. */
    method EndOp(a: nat) returns (ghost run: seq<Label>)
      requires Valid() && st.phase == Running && InOp(st, a) && outstanding > 0 && a !in st.locked.Values
      modifies this
      ensures Valid() && st.phase == Running
      ensures Does(old(st), run, st, if old(outstanding) > 1 then [End(a)]
                                     else [End(a)] + (CommitRun(|old(lh)|) + [CommitDone]))
    {
      ghost var s0, n := st, |lh|;
      Leave(a);
      ghost var s1 := st;
      DoesOne(s0, End(a));
      run := [End(a)];
      if outstanding == 0 {
        ghost var more := CommitAll();
        DoesJoin(s0, run, s1, [End(a)], more, st, CommitRun(n) + [CommitDone]);
        run := run + more;
      }
    }

    /** The start of `end_op`, under the log's lock. */
    method Leave(a: nat)
      requires Valid() && st.phase == Running && InOp(st, a) && outstanding > 0 && a !in st.locked.Values
      modifies this`outstanding, this`committing, this`st
      ensures Valid() && Enabled(old(st), End(a)) && st == Next(old(st), End(a))
      ensures outstanding == old(outstanding) - 1 && st.phase == if outstanding == 0 then WritingLog(0) else Running
      ensures st.lh == old(st).lh && st.locked == old(st).locked
    {
      outstanding := outstanding - 1;
      committing := outstanding == 0;
      st := st.(agents := st.agents[a := Outside], outstanding := outstanding,
                phase := if outstanding == 0 then WritingLog(0) else Running);
    }

    /** The end of `end_op`: `commit` without the lock, then `committing = 0`. */
    method CommitAll() returns (ghost run: seq<Label>)
      requires Valid() && st.phase == WritingLog(0)
      modifies this
      ensures Valid() && st.phase == Running
      ensures Does(old(st), run, st, CommitRun(|old(lh)|) + [CommitDone])
    {
      ghost var s0, n := st, |lh|;
      ghost var r := Commit();
      ghost var s1 := st;
      CommitEnds(s0, r, s1, n);
      committing := false;
      st := st.(phase := Running);
      run := r + [CommitDone];
    }

    /** `bwrite` of log block `i`. */
    method WriteSlot(i: nat, v: Block)
      requires Valid() && i < lay.size - 1
      modifies this`dev, this`cache, this`st
      ensures Valid()
      ensures st == old(st).(disk := old(st).disk.(slots := old(st).disk.slots[i := v]))
    {
      SplitSlot(lay, dev, i, v);
      CachedPut(lay, cache, lay.start + 1 + i, v);
      dev, cache := dev[lay.start + 1 + i := v], cache[lay.start + 1 + i := v];
      st := st.(disk := st.disk.(slots := st.disk.slots[i := v]));
    }

    /** `bwrite` of a home block. */
    method WriteHome(b: nat, v: Block)
      requires Valid() && lay.IsHome(b)
      modifies this`dev, this`cache, this`st
      ensures Valid()
      ensures st == old(st).(disk := old(st).disk.(home := old(st).disk.home[b := v]), cache := old(st).cache[b := v],
                             unlogged := old(st).unlogged - {b})
    {
      SplitHome(lay, dev, b, v);
      CachedPut(lay, cache, b, v);
      dev, cache := dev[b := v], cache[b := v];
      st := st.(disk := st.disk.(home := st.disk.home[b := v]), cache := st.cache[b := v],
                unlogged := st.unlogged - {b});
    }

    /** The header write that commits. */
    method CommitPoint()
      requires Valid() && st.phase == WritingLog(|lh|)
      modifies this`dev, this`cache, this`st
      ensures Valid() && st == old(st).(disk := old(st).disk.(head := lh), phase := Installing(0))
    {
      PutHead();
      st := st.(phase := Installing(0));
    }

    /** The header write that erases the transaction from the log. */
    method ClearHead(recovering: bool)
      requires Valid() && st.phase == InstallPhase(recovering, |lh|)
      modifies this`dev, this`cache, this`lh, this`st
      ensures Valid() && lh == []
      ensures st == old(st).(disk := old(st).disk.(head := []), lh := [], phase := if recovering then Running
        else Committed)
    {
      lh := [];
      st := st.(lh := []);
      PutHead();
      st := st.(phase := if recovering then Running else Committed);
    }

    /** `write_head`, the list in memory being `lh`. */
    method PutHead()
      requires Valid()
      modifies this`dev, this`cache, this`st
      ensures Valid()
      ensures st == old(st).(disk := old(st).disk.(head := lh))
    {
      var hb := WriteHead();
      SplitHead(lay, old(dev), hb);
      CachedPut(lay, old(cache), lay.start, hb);
      st := st.(disk := st.disk.(head := lh));
    }
  }

  lemma WriteSlotNext(s: State, i: nat)
    requires s.phase == WritingLog(i) && i < |s.lh| && i < |s.disk.slots| && s.lh[i] in s.disk.home
    requires s.lh[i] !in s.locked
    ensures Enabled(s, WriteLogBlock) && Next(s, WriteLogBlock) == LogCopied(s, i).(phase := WritingLog(i + 1))
  {
  }

  lemma InstallNext(s: State, recovering: bool, i: nat)
    requires s.phase == InstallPhase(recovering, i) && i < |s.lh| && i < |s.disk.slots|
    requires recovering || s.lh[i] !in s.locked
    ensures Enabled(s, InstallLabel(recovering))
    ensures Next(s, InstallLabel(recovering)) == Installed(s, i).(
      pins := if recovering then s.pins else Unpin(s.pins, s.lh[i]), phase := InstallPhase(recovering, i + 1))
  {
  }

  /** One more step `l`, after a wait for block `b` if somebody holds it. */
  lemma DoesTurn(s: State, run: seq<Label>, t: State, wait: seq<Label>, u: State, l: Label, k: nat, b: nat)
    requires Does(s, run, t, Repeat(l, k)) && (Unheld(s) ==> Unheld(t)) && b in t.lh && !l.Brelse?
    requires Legal(t, wait) && Exec(t, wait) == u && Own(wait) == [] && (b !in t.locked ==> wait == []) && Enabled(u, l)
    ensures Does(s, run + (wait + [l]), Next(u, l), Repeat(l, k + 1))
  {
    DoesOne(u, l);
    LegalJoin(t, wait, [l]);
    LegalJoin(s, run, wait + [l]);
    OwnJoin(wait, [l]);
    OwnJoin(run, wait + [l]);
    assert Repeat(l, k + 1) == Repeat(l, k) + [l];
  }

  lemma CommitEnds(s0: State, r: seq<Label>, s1: State, n: nat)
    requires Does(s0, r, s1, CommitRun(n)) && Unheld(s1) && s1.lh == []
    requires s1.phase == Committed || s1.phase == WritingLog(0)
    ensures Does(s0, r + [CommitDone], s1.(phase := Running), CommitRun(n) + [CommitDone])
  {
    DoesOne(s1, CommitDone);
    DoesJoin(s0, r, s1, CommitRun(n), [CommitDone], s1.(phase := Running), [CommitDone]);
  }

  lemma CommitJoins(s0: State, r1: seq<Label>, s1: State, s2: State, r2: seq<Label>, s3: State, n: nat)
    returns (run: seq<Label>)
    requires n > 0 && Does(s0, r1, s1, Repeat(WriteLogBlock, n)) && (Unheld(s0) ==> Unheld(s1))
    requires s1.phase == WritingLog(n) && |s1.lh| == n
    requires s2 == s1.(disk := s1.disk.(head := s1.lh), phase := Installing(0))
    requires Does(s2, r2, s3, Repeat(InstallBlock, n)) && (Unheld(s2) ==> Unheld(s3))
    requires s3.phase == Installing(n) && |s3.lh| == n
    ensures Does(s0, run, s3.(disk := s3.disk.(head := []), lh := [], phase := Committed), CommitRun(n))
  {
    var a, b := Repeat(WriteLogBlock, n), Repeat(InstallBlock, n);
    DoesOne(s1, CommitHead);
    DoesJoin(s0, r1, s1, a, [CommitHead], s2, [CommitHead]);
    DoesJoin(s0, r1 + [CommitHead], s2, a + [CommitHead], r2, s3, b);
    DoesOne(s3, ClearHead);
    DoesJoin(s0, r1 + [CommitHead] + r2, s3, a + [CommitHead] + b, [ClearHead], Next(s3, ClearHead), [ClearHead]);
    run := r1 + [CommitHead] + r2 + [ClearHead];
  }

  lemma RecoverJoins(s0: State, s1: State, s2: State)
    requires s0.phase == Booting && s1 == s0.(lh := s0.disk.head, phase := Recovering(0))
    requires var n := |s0.disk.head|;
      && Legal(s1, Repeat(RecoverBlock, n)) && s2 == Exec(s1, Repeat(RecoverBlock, n))
      && s2.phase == Recovering(n) && |s2.lh| == n
    ensures Legal(s0, RecoverRun(|s0.disk.head|))
    ensures Exec(s0, RecoverRun(|s0.disk.head|)) == s2.(disk := s2.disk.(head := []), lh := [], phase := Running)
  {
    var n := |s0.disk.head|;
    LegalOne(s0, ReadHead);
    LegalJoin(s0, [ReadHead], Repeat(RecoverBlock, n));
    LegalOne(s2, RecoverDone);
    LegalJoin(s0, [ReadHead] + Repeat(RecoverBlock, n), [RecoverDone]);
  }
}
