/**
 * Crash atomicity of the logging protocol: a history of operations with a durable prefix is
 * simulated by every run of the machine, through crashes at any block write.  Bytes that were
 * changed in a buffer and never logged are accounted for block by block.
 */
module LogSafety {
  import opened LogMachine

  // ----- the abstract history

  datatype Event = Began(a: nat) | Wrote(a: nat, b: nat, v: Block) | Ended(a: nat)

  /**
   * Home content at first boot, the operations since, and how much of that is durable.  `loose`
   * holds the blocks whose current bytes were not logged, `spoiled` those whose durable bytes
   * were not, each with these bytes.
   */
  datatype History = History(base: Home, trace: seq<Event>, durable: nat, loose: Home, spoiled: Home)

  function Apply(base: Home, trace: seq<Event>): Home {
    if trace == [] then base
    else
      var h := Apply(base, trace[..|trace| - 1]);
      var e := trace[|trace| - 1];
      if e.Wrote? then h[e.b := e.v] else h
  }

  /** Processes that have begun and not ended an operation. */
  function Open(trace: seq<Event>): set<nat> {
    if trace == [] then {}
    else
      var o := Open(trace[..|trace| - 1]);
      match trace[|trace| - 1]
      case Began(a) => o + {a}
      case Wrote(_, _, _) => o
      case Ended(a) => o - {a}
  }

  /** What the operations logged. */
  function Volatile(h: History): Home { Apply(h.base, h.trace) }

  /** What the durable operations logged. */
  function Durable(h: History): Home
    requires h.durable <= |h.trace|
  {
    Apply(h.base, h.trace[..h.durable])
  }

  function Overlay(m: Home, o: Home): Home {
    map b | b in m :: if b in o then o[b] else m[b]
  }

  /** What `bread` delivers. */
  function Now(h: History): Home { Overlay(Volatile(h), h.loose) }

  /** What a crash leaves. */
  function Kept(h: History): Home
    requires h.durable <= |h.trace|
  {
    Overlay(Durable(h), h.spoiled)
  }

  /** `m` on the listed blocks, `o` elsewhere. */
  function Chosen(m: Home, o: Home, lh: seq<nat>): Home {
    map b | b in m.Keys + o.Keys && (if b in lh then b in m else b in o) :: if b in lh then m[b] else o[b]
  }

  /** How the history grows: it only watches the machine. */
  function Record(h: History, s: State, l: Label): History
    requires h.durable <= |h.trace|
    requires l.LogWrite? ==> l.b in s.cache
  {
    match l
    case Begin(a) => h.(trace := h.trace + [Began(a)])
    case End(a) => h.(trace := h.trace + [Ended(a)])
    case Modify(a, b, v) => h.(loose := h.loose[b := v])
    case LogWrite(a, b) => h.(trace := h.trace + [Wrote(a, b, s.cache[b])], loose := h.loose - {b})
    case Evict(b) => h.(loose := if b in h.spoiled then h.loose[b := h.spoiled[b]] else h.loose - {b})
    case CommitHead => h.(durable := |h.trace|, spoiled := Chosen(h.loose, h.spoiled, s.lh))
    case Crash => h.(trace := h.trace[..h.durable], loose := h.spoiled)
    case _ => h
  }

  // ----- what replaying the on-disk log yields

  /** A header the code can have written: known blocks, each once, within the log. */
  ghost predicate GoodEntries(blocks: set<nat>, slots: nat, lh: seq<nat>) {
    && |lh| <= slots && |lh| <= LOGSIZE
    && (forall i :: 0 <= i < |lh| ==> lh[i] in blocks)
    && (forall i, j :: 0 <= i < j < |lh| ==> lh[i] != lh[j])
  }

  /** Recovery would leave `h` in the home blocks: logged copies where the header says so. */
  ghost predicate RecoversTo(d: Disk, h: Home) {
    && h.Keys == d.home.Keys
    && GoodEntries(d.home.Keys, |d.slots|, d.head)
    && (forall i :: 0 <= i < |d.head| ==> h[d.head[i]] == d.slots[i])
    && (forall b :: b in h && b !in d.head ==> h[b] == d.home[b])
  }

  // ----- the invariant, in parts that name only the fields they constrain

  /** The blocks that must still be pinned: the logged ones that are not yet installed. */
  function Pinned(phase: Phase, lh: seq<nat>): seq<nat> {
    match phase
    case Running => lh
    case WritingLog(_) => lh
    case Installing(i) => if i <= |lh| then lh[i..] else []
    case _ => []
  }

  ghost predicate Locking(cache: Home, locked: map<nat, nat>, unlogged: set<nat>) {
    && (forall b :: b in locked ==> b in cache)
    && (forall b :: b in unlogged ==> b in cache)
  }

  /** A buffer that is neither changed nor pinned agrees with the disk; pins keep buffers. */
  ghost predicate Coherent(cache: Home, home: Home, unlogged: set<nat>, pinned: seq<nat>) {
    && cache.Keys <= home.Keys
    && (forall b :: b in pinned ==> b in cache)
    && (forall b :: b in cache && b !in unlogged && b !in pinned ==> cache[b] == home[b])
  }

  /** Each block of the list has exactly one pin, and no other block has any. */
  ghost predicate PinnedOnce(pins: map<nat, nat>, pinned: seq<nat>) {
    forall b :: Pins(pins, b) == if b in pinned then 1 else 0
  }

  ghost predicate Reserved(lh: seq<nat>, agents: seq<Agent>, outstanding: nat) {
    && outstanding == Active(agents) && Within(agents)
    && |lh| + Unused(agents) <= LOGSIZE
  }

  ghost predicate InPhase(s: State) {
    match s.phase
    case Running => s.disk.head == []
    case WritingLog(i) => s.outstanding == 0 && i <= |s.lh| && s.disk.head == []
    case Installing(i) => s.outstanding == 0 && i <= |s.lh| && s.disk.head == s.lh
    case Committed => s.outstanding == 0 && s.lh == [] && s.disk.head == []
    case Booting => s.outstanding == 0 && s.lh == [] && s.cache == map[] && s.locked == map[] && s.unlogged == {}
    case Recovering(i) =>
      s.outstanding == 0 && i <= |s.lh| && s.disk.head == s.lh && s.locked == map[] && s.unlogged == {}
  }

  ghost predicate InvState(s: State) {
    && GoodEntries(s.disk.home.Keys, |s.disk.slots|, s.lh)
    && Locking(s.cache, s.locked, s.unlogged)
    && PinnedOnce(s.pins, Pinned(s.phase, s.lh))
    && Coherent(s.cache, s.disk.home, s.unlogged, Pinned(s.phase, s.lh))
    && Reserved(s.lh, s.agents, s.outstanding)
    && InPhase(s)
  }

  ghost predicate Traced(h: History, agents: seq<Agent>) {
    && h.durable <= |h.trace|
    && Open(h.trace[..h.durable]) == {}
    && (forall a :: a in Open(h.trace) <==> 0 <= a < |agents| && agents[a].Inside?)
  }

  ghost predicate Current(cache: Home, home: Home, now: Home) {
    && now.Keys == home.Keys
    && forall b :: b in home ==> Look(cache, home, b) == now[b]
  }

  ghost predicate SameExcept(vol: Home, dur: Home, lh: seq<nat>) {
    vol.Keys == dur.Keys && forall b :: b in vol && b !in lh ==> vol[b] == dur[b]
  }

  /** The two contents differ at most in logged and in changed blocks. */
  ghost predicate Pending(now: Home, kept: Home, lh: seq<nat>, unlogged: set<nat>) {
    now.Keys == kept.Keys && forall b :: b in now && b !in lh && b !in unlogged ==> now[b] == kept[b]
  }

  /** They differ at most in changed blocks that are not being installed. */
  ghost predicate Settled(now: Home, kept: Home, lh: seq<nat>, unlogged: set<nat>) {
    now.Keys == kept.Keys && forall b :: b in now && (b in lh || b !in unlogged) ==> now[b] == kept[b]
  }

  ghost predicate InstalledTo(home: Home, dur: Home, lh: seq<nat>, k: nat) {
    forall j :: 0 <= j < k && j < |lh| && lh[j] in home && lh[j] in dur ==> home[lh[j]] == dur[lh[j]]
  }

  ghost predicate SimPhase(s: State, now: Home, kept: Home) {
    match s.phase
    case Running => Pending(now, kept, s.lh, s.unlogged) && Current(s.cache, s.disk.home, now)
    case WritingLog(i) =>
      && Pending(now, kept, s.lh, s.unlogged) && Current(s.cache, s.disk.home, now)
      && i <= |s.disk.slots|
      && (forall j :: 0 <= j < i && j < |s.lh| && s.lh[j] in now ==> s.disk.slots[j] == now[s.lh[j]])
    case Installing(i) =>
      && Settled(now, kept, s.lh, s.unlogged) && InstalledTo(s.disk.home, kept, s.lh, i)
      && Current(s.cache, s.disk.home, now)
    case Committed => Settled(now, kept, [], s.unlogged) && Current(s.cache, s.disk.home, now)
    case Booting => now == kept
    case Recovering(i) => now == kept && InstalledTo(s.disk.home, kept, s.lh, i)
  }

  /** The machine agrees with the content that buffers show and the content a crash would leave. */
  ghost predicate Agrees(s: State, now: Home, kept: Home) {
    InvState(s) && RecoversTo(s.disk, kept) && SimPhase(s, now, kept)
  }

  /** Only what is in the log is logged and not durable. */
  ghost predicate Logging(phase: Phase, lh: seq<nat>, vol: Home, dur: Home) {
    if phase.Running? || phase.WritingLog? then SameExcept(vol, dur, lh) else vol == dur
  }

  ghost predicate Inv(s: State, h: History) {
    && Traced(h, s.agents) && Logging(s.phase, s.lh, Volatile(h), Durable(h))
    && Agrees(s, Now(h), Kept(h))
  }

  lemma Appended(h: History, e: Event)
    requires h.durable <= |h.trace|
    ensures var h' := h.(trace := h.trace + [e]);
      && Durable(h') == Durable(h)
      && Volatile(h') == (if e.Wrote? then Volatile(h)[e.b := e.v] else Volatile(h))
      && h'.trace[..h.durable] == h.trace[..h.durable]
      && Open(h'.trace) == (match e case Began(a) => Open(h.trace) + {a} case Wrote(_, _, _) => Open(h.trace)
                                  case Ended(a) => Open(h.trace) - {a})
  {
    var t := h.trace + [e];
    assert t[..|t| - 1] == h.trace;
    assert t[..h.durable] == h.trace[..h.durable];
  }

  // ----- how the parts survive a change of the fields they name

  lemma Whole(s: State, pinned: seq<nat>)
    requires pinned == Pinned(s.phase, s.lh)
    requires GoodEntries(s.disk.home.Keys, |s.disk.slots|, s.lh)
    requires Locking(s.cache, s.locked, s.unlogged)
    requires PinnedOnce(s.pins, pinned) && Coherent(s.cache, s.disk.home, s.unlogged, pinned)
    requires Reserved(s.lh, s.agents, s.outstanding) && InPhase(s)
    ensures InvState(s)
  {
  }

  lemma Changed(cache: Home, home: Home, unlogged: set<nat>, lh: seq<nat>, now: Home, kept: Home, b: nat, v: Block)
    requires b in cache && Coherent(cache, home, unlogged, lh)
    requires Current(cache, home, now) && Pending(now, kept, lh, unlogged)
    ensures Coherent(cache[b := v], home, unlogged + {b}, lh)
    ensures Current(cache[b := v], home, now[b := v]) && Pending(now[b := v], kept, lh, unlogged + {b})
  {
  }

  lemma Loaded(cache: Home, home: Home, unlogged: set<nat>, pinned: seq<nat>, now: Home, b: nat)
    requires b in home && Coherent(cache, home, unlogged, pinned)
    ensures Coherent(cache[b := Look(cache, home, b)], home, unlogged, pinned)
    ensures Current(cache, home, now) ==> Current(cache[b := Look(cache, home, b)], home, now)
  {
  }

  lemma Evicted(cache: Home, home: Home, unlogged: set<nat>, pinned: seq<nat>, now: Home, b: nat)
    requires b in cache && b !in pinned && Coherent(cache, home, unlogged, pinned)
    ensures Coherent(cache - {b}, home, unlogged - {b}, pinned)
    ensures Current(cache, home, now) ==> Current(cache - {b}, home, now[b := home[b]])
  {
  }

  lemma CoherentInstall(cache: Home, home: Home, unlogged: set<nat>, pinned: seq<nat>, pinned': seq<nat>, b: nat,
                        v: Block)
    requires Coherent(cache, home, unlogged, pinned) && b in home
    requires forall x :: x in pinned <==> x == b || x in pinned'
    ensures Coherent(cache[b := v], home[b := v], unlogged - {b}, pinned')
  {
  }

  lemma Unpinned(pins: map<nat, nat>, lh: seq<nat>, i: nat)
    requires i < |lh| && PinnedOnce(pins, lh[i..])
    requires forall p, q :: 0 <= p < q < |lh| ==> lh[p] != lh[q]
    ensures PinnedOnce(Unpin(pins, lh[i]), lh[i + 1..])
    ensures forall x :: x in lh[i..] <==> x == lh[i] || x in lh[i + 1..]
  {
    assert lh[i..] == [lh[i]] + lh[i + 1..];
    assert lh[i] !in lh[i + 1..];
    forall x ensures Pins(Unpin(pins, lh[i]), x) == if x in lh[i + 1..] then 1 else 0 {
      assert Pins(pins, x) == if x in lh[i..] then 1 else 0;
      assert Pins(pins, lh[i]) == 1;
    }
  }

  lemma Pinning(blocks: set<nat>, slots: nat, pins: map<nat, nat>, lh: seq<nat>, b: nat)
    requires GoodEntries(blocks, slots, lh) && PinnedOnce(pins, lh)
    requires b in blocks && b !in lh && |lh| < slots && |lh| < LOGSIZE
    ensures GoodEntries(blocks, slots, lh + [b]) && PinnedOnce(pins[b := Pins(pins, b) + 1], lh + [b])
  {
  }

  lemma CurrentInstall(cache: Home, home: Home, now: Home, b: nat, v: Block)
    requires Current(cache, home, now) && b in home && now[b] == v
    ensures Current(cache[b := v], home[b := v], now)
  {
  }

  lemma RecoversInstall(d: Disk, h: Home, i: nat)
    requires RecoversTo(d, h) && i < |d.head|
    ensures var d' := d.(home := d.home[d.head[i] := d.slots[i]]);
      RecoversTo(d', h) && d'.home.Keys == d.home.Keys
      && (InstalledTo(d.home, h, d.head, i) ==> InstalledTo(d'.home, h, d.head, i + 1))
  {
  }

  /** Once every logged block is installed, clearing the header changes nothing. */
  lemma RecoversClear(d: Disk, h: Home)
    requires RecoversTo(d, h) && InstalledTo(d.home, h, d.head, |d.head|)
    ensures RecoversTo(d.(head := []), h) && d.home == h
  {
    forall b | b in h ensures b in d.home && d.home[b] == h[b] {
      if b in d.head {
        var i :| 0 <= i < |d.head| && d.head[i] == b;
      }
    }
  }

  lemma RecoversCommit(d: Disk, now: Home, kept: Home, lh: seq<nat>)
    requires RecoversTo(d, kept) && d.head == [] && GoodEntries(d.home.Keys, |d.slots|, lh) && now.Keys == kept.Keys
    requires forall j :: 0 <= j < |lh| ==> d.slots[j] == now[lh[j]]
    ensures RecoversTo(d.(head := lh), Chosen(now, kept, lh))
  {
  }

  lemma Logged(cache: Home, home: Home, unlogged: set<nat>, lh: seq<nat>, now: Home, kept: Home, b: nat)
    requires b in cache && Coherent(cache, home, unlogged, lh) && Pending(now, kept, lh, unlogged)
    ensures var lh' := if b in lh then lh else lh + [b];
      && Coherent(cache, home, unlogged - {b}, lh')
      && Pending(now, kept, lh', unlogged - {b})
  {
  }

  // ----- one lemma per step of the machine

  lemma StepBegin(s: State, now: Home, kept: Home, a: nat)
    requires Agrees(s, now, kept) && a < |s.agents| && s.agents[a].Outside? && !BeginMustWait(s)
    ensures Agrees(s.(agents := s.agents[a := Inside(0)], outstanding := s.outstanding + 1), now, kept)
  {
    UpdateAgent(s.agents, a, Inside(0));
    UnusedBounds(s.agents);
  }

  lemma StepEnd(s: State, now: Home, kept: Home, a: nat)
    requires Agrees(s, now, kept) && InOp(s, a) && s.phase.Running? && s.outstanding > 0
    ensures Agrees(s.(agents := s.agents[a := Outside], outstanding := s.outstanding - 1,
                   phase := if s.outstanding == 1 then WritingLog(0) else Running), now, kept)
  {
    UpdateAgent(s.agents, a, Outside);
    UnusedBounds(s.agents[a := Outside]);
  }

  /** An operation is only ever inside while the log is not committing. */
  lemma InsideIsRunning(s: State, a: nat)
    requires InPhase(s) && Reserved(s.lh, s.agents, s.outstanding) && InOp(s, a)
    ensures s.phase.Running?
  {
    UnusedBounds(s.agents);
  }

  lemma StepAbsorb(s: State, now: Home, kept: Home, a: nat, b: nat)
    requires Agrees(s, now, kept) && InOp(s, a) && b in s.cache && b in s.lh
    ensures Agrees(s.(unlogged := s.unlogged - {b}), now, kept)
  {
    InsideIsRunning(s, a);
    Logged(s.cache, s.disk.home, s.unlogged, s.lh, now, kept, b);
    Whole(s.(unlogged := s.unlogged - {b}), s.lh);
  }

  lemma StepAppendState(s: State, a: nat, b: nat)
    requires InvState(s) && s.phase.Running? && InOp(s, a) && b in s.cache && b !in s.lh && !LogWritePanics(s)
    requires s.agents[a].added < MAXOPBLOCKS
    ensures InvState(AfterLogWrite(s, a, b))
  {
    Pinning(s.disk.home.Keys, |s.disk.slots|, s.pins, s.lh, b);
    UpdateAgent(s.agents, a, Inside(s.agents[a].added + 1));
    Whole(AfterLogWrite(s, a, b), s.lh + [b]);
  }

  lemma StepAppend(s: State, now: Home, kept: Home, a: nat, b: nat)
    requires Agrees(s, now, kept) && InOp(s, a) && b in s.cache && b !in s.lh && !LogWritePanics(s)
    requires s.agents[a].added < MAXOPBLOCKS
    ensures Agrees(AfterLogWrite(s, a, b), now, kept)
  {
    InsideIsRunning(s, a);
    StepAppendState(s, a, b);
    Logged(s.cache, s.disk.home, s.unlogged, s.lh, now, kept, b);
  }

  lemma StepBread(s: State, now: Home, kept: Home, a: nat, b: nat)
    requires Agrees(s, now, kept) && b in s.disk.home && b !in s.locked && !s.phase.Booting? && !s.phase.Recovering?
    ensures Agrees(s.(cache := s.cache[b := Look(s.cache, s.disk.home, b)], locked := s.locked[b := a]), now, kept)
  {
    Loaded(s.cache, s.disk.home, s.unlogged, Pinned(s.phase, s.lh), now, b);
  }

  lemma StepModify(s: State, now: Home, kept: Home, a: nat, b: nat, v: Block)
    requires Agrees(s, now, kept) && InOp(s, a) && Holds(s, a, b)
    ensures Agrees(s.(cache := s.cache[b := v], unlogged := s.unlogged + {b}), now[b := v], kept)
  {
    InsideIsRunning(s, a);
    Changed(s.cache, s.disk.home, s.unlogged, s.lh, now, kept, b, v);
    Whole(s.(cache := s.cache[b := v], unlogged := s.unlogged + {b}), s.lh);
  }

  lemma StepBrelse(s: State, now: Home, kept: Home, b: nat)
    requires Agrees(s, now, kept) && b in s.locked
    ensures Agrees(s.(locked := s.locked - {b}), now, kept)
  {
    Whole(s.(locked := s.locked - {b}), Pinned(s.phase, s.lh));
  }

  /** A block installed so far, or not logged at all, holds on disk what a crash would leave. */
  lemma UnpinnedKept(d: Disk, kept: Home, lh: seq<nat>, i: nat, b: nat)
    requires RecoversTo(d, kept) && (d.head == [] || d.head == lh) && i <= |lh| && InstalledTo(d.home, kept, lh, i)
    requires b in d.home && b !in lh[i..]
    ensures b in kept && d.home[b] == kept[b]
  {
    if b in lh {
      var j :| 0 <= j < |lh| && lh[j] == b;
    }
  }

  lemma StepEvictState(s: State, b: nat)
    requires InvState(s) && b in s.cache && b !in Pinned(s.phase, s.lh) && b !in s.locked
    ensures InvState(s.(cache := s.cache - {b}, unlogged := s.unlogged - {b}))
  {
    Evicted(s.cache, s.disk.home, s.unlogged, Pinned(s.phase, s.lh), s.cache, b);
    Whole(s.(cache := s.cache - {b}, unlogged := s.unlogged - {b}), Pinned(s.phase, s.lh));
  }

  lemma EvictDuringInstall(s: State, now: Home, kept: Home, b: nat)
    requires SimPhase(s, now, kept) && RecoversTo(s.disk, kept) && InPhase(s) && b in s.cache && s.phase.Installing?
    requires Coherent(s.cache, s.disk.home, s.unlogged, Pinned(s.phase, s.lh)) && b !in Pinned(s.phase, s.lh)
    ensures b in kept && SimPhase(s.(cache := s.cache - {b}, unlogged := s.unlogged - {b}), now[b := kept[b]], kept)
  {
    Evicted(s.cache, s.disk.home, s.unlogged, Pinned(s.phase, s.lh), now, b);
    UnpinnedKept(s.disk, kept, s.lh, s.phase.done, b);
  }

  /** An evicted buffer leaves its block as the disk has it. */
  lemma EvictShows(s: State, now: Home, kept: Home, b: nat)
    requires SimPhase(s, now, kept) && RecoversTo(s.disk, kept) && InPhase(s) && b in s.cache
    requires Coherent(s.cache, s.disk.home, s.unlogged, Pinned(s.phase, s.lh)) && b !in Pinned(s.phase, s.lh)
    ensures b in kept && SimPhase(s.(cache := s.cache - {b}, unlogged := s.unlogged - {b}), now[b := kept[b]], kept)
  {
    if s.phase.Booting? || s.phase.Recovering? {
      assert now[b := kept[b]] == now;
    } else if s.phase.Installing? {
      EvictDuringInstall(s, now, kept, b);
    } else {
      Evicted(s.cache, s.disk.home, s.unlogged, Pinned(s.phase, s.lh), now, b);
    }
  }

  lemma StepEvict(s: State, now: Home, kept: Home, b: nat)
    requires Agrees(s, now, kept) && b in s.cache && Pins(s.pins, b) == 0 && b !in s.locked
    ensures b in kept && Agrees(s.(cache := s.cache - {b}, unlogged := s.unlogged - {b}), now[b := kept[b]], kept)
  {
    assert b !in Pinned(s.phase, s.lh);
    StepEvictState(s, b);
    EvictShows(s, now, kept, b);
  }

  lemma StepWriteLog(s: State, now: Home, kept: Home, i: nat)
    requires Agrees(s, now, kept) && s.phase == WritingLog(i) && i < |s.lh|
    ensures Agrees(LogCopied(s, i).(phase := WritingLog(i + 1)), now, kept)
  {
    assert Look(s.cache, s.disk.home, s.lh[i]) == now[s.lh[i]];
    assert RecoversTo(LogCopied(s, i).disk, kept);
    Whole(LogCopied(s, i).(phase := WritingLog(i + 1)), s.lh);
  }

  lemma StepCommitHead(s: State, now: Home, kept: Home)
    requires Agrees(s, now, kept) && s.phase == WritingLog(|s.lh|)
    ensures Agrees(s.(disk := s.disk.(head := s.lh), phase := Installing(0)), now, Chosen(now, kept, s.lh))
  {
    assert s.lh[0..] == s.lh;
    UnusedBounds(s.agents);
    RecoversCommit(s.disk, now, kept, s.lh);
  }

  function AfterInstall(s: State, i: nat): State
    requires i < |s.lh| && i < |s.disk.slots|
  {
    Installed(s, i).(pins := Unpin(s.pins, s.lh[i]), phase := Installing(i + 1))
  }

  lemma StepInstallState(s: State, i: nat)
    requires InvState(s) && s.phase == Installing(i) && i < |s.lh|
    ensures InvState(AfterInstall(s, i))
  {
    var b, v, t := s.lh[i], s.disk.slots[i], AfterInstall(s, i);
    Unpinned(s.pins, s.lh, i);
    CoherentInstall(s.cache, s.disk.home, s.unlogged, s.lh[i..], s.lh[i + 1..], b, v);
    assert t.disk.home.Keys == s.disk.home.Keys && t.lh == s.lh && t.agents == s.agents &&
      t.outstanding == s.outstanding;
    Whole(t, s.lh[i + 1..]);
  }

  lemma StepInstall(s: State, now: Home, kept: Home, i: nat)
    requires Agrees(s, now, kept) && s.phase == Installing(i) && i < |s.lh|
    ensures Agrees(AfterInstall(s, i), now, kept)
  {
    StepInstallState(s, i);
    CurrentInstall(s.cache, s.disk.home, now, s.lh[i], s.disk.slots[i]);
    RecoversInstall(s.disk, kept, i);
  }

  lemma StepClear(s: State, now: Home, kept: Home)
    requires Agrees(s, now, kept) && s.phase == Installing(|s.lh|)
    ensures Agrees(s.(disk := s.disk.(head := []), lh := [], phase := Committed), now, kept)
  {
    RecoversClear(s.disk, kept);
  }

  lemma StepDone(s: State, now: Home, kept: Home)
    requires Agrees(s, now, kept) && (s.phase.Committed? || (s.phase.WritingLog? && |s.lh| == 0))
    ensures Agrees(s.(phase := Running), now, kept)
  {
  }

  lemma StepCrash(s: State, now: Home, kept: Home)
    requires Agrees(s, now, kept)
    ensures Agrees(Crashed(s), kept, kept)
  {
    UnusedBounds(Crashed(s).agents);
  }

  lemma StepReadHead(s: State, now: Home, kept: Home)
    requires Agrees(s, now, kept) && s.phase.Booting?
    ensures Agrees(s.(lh := s.disk.head, phase := Recovering(0)), now, kept)
  {
    UnusedBounds(s.agents);
  }

  lemma StepRecoverBlock(s: State, now: Home, kept: Home, i: nat)
    requires Agrees(s, now, kept) && s.phase == Recovering(i) && i < |s.lh|
    ensures Agrees(Installed(s, i).(phase := Recovering(i + 1)), now, kept)
  {
    var b, v := s.lh[i], s.disk.slots[i];
    RecoversInstall(s.disk, kept, i);
    assert s.disk.home[b := v].Keys == s.disk.home.Keys;
    Whole(Installed(s, i).(phase := Recovering(i + 1)), []);
  }

  lemma StepRecoverDone(s: State, now: Home, kept: Home)
    requires Agrees(s, now, kept) && s.phase == Recovering(|s.lh|)
    ensures Agrees(s.(disk := s.disk.(head := []), lh := [], phase := Running), now, kept)
  {
    RecoversClear(s.disk, kept);
    assert Current(s.cache, s.disk.home, kept);
  }

  // ----- all steps

  predicate IsOperation(l: Label) {
    l.Begin? || l.End? || l.LogWrite?
  }

  predicate IsBuffer(l: Label) {
    l.Bread? || l.Modify? || l.Brelse? || l.Evict?
  }

  predicate IsCommit(l: Label) {
    l.WriteLogBlock? || l.CommitHead? || l.InstallBlock? || l.ClearHead? || l.CommitDone?
  }

  /** What a step does to the content that buffers show. */
  function NowAfter(now: Home, kept: Home, l: Label): Home {
    match l
    case Modify(a, b, v) => now[b := v]
    case Evict(b) => if b in kept then now[b := kept[b]] else now
    case Crash => kept
    case _ => now
  }

  /** What a step does to the content that a crash leaves. */
  function KeptAfter(now: Home, kept: Home, lh: seq<nat>, l: Label): Home {
    if l.CommitHead? then Chosen(now, kept, lh) else kept
  }

  lemma OperationStep(s: State, now: Home, kept: Home, l: Label)
    requires Agrees(s, now, kept) && Enabled(s, l) && IsOperation(l)
    ensures Agrees(Next(s, l), now, kept)
  {
    match l
    case Begin(a) => StepBegin(s, now, kept, a);
    case End(a) => StepEnd(s, now, kept, a);
    case LogWrite(a, b) =>
      if b in s.lh { StepAbsorb(s, now, kept, a, b); } else { StepAppend(s, now, kept, a, b); }
  }

  lemma BufferStep(s: State, now: Home, kept: Home, l: Label)
    requires Agrees(s, now, kept) && Enabled(s, l) && IsBuffer(l)
    ensures Agrees(Next(s, l), NowAfter(now, kept, l), kept)
  {
    match l
    case Bread(a, b) => StepBread(s, now, kept, a, b);
    case Modify(a, b, v) => StepModify(s, now, kept, a, b, v);
    case Brelse(a, b) => StepBrelse(s, now, kept, b);
    case Evict(b) => StepEvict(s, now, kept, b);
  }

  lemma LogStep(s: State, now: Home, kept: Home, l: Label)
    requires Agrees(s, now, kept) && Enabled(s, l) && (l.WriteLogBlock? || l.CommitHead?)
    ensures Agrees(Next(s, l), now, KeptAfter(now, kept, s.lh, l))
  {
    match l
    case WriteLogBlock => StepWriteLog(s, now, kept, s.phase.done);
    case CommitHead => StepCommitHead(s, now, kept);
  }

  lemma InstallStep(s: State, now: Home, kept: Home, l: Label)
    requires Agrees(s, now, kept) && Enabled(s, l) && (l.InstallBlock? || l.ClearHead? || l.CommitDone?)
    ensures Agrees(Next(s, l), now, kept)
  {
    match l
    case InstallBlock => StepInstall(s, now, kept, s.phase.done);
    case ClearHead => StepClear(s, now, kept);
    case CommitDone => StepDone(s, now, kept);
  }

  lemma CommitStep(s: State, now: Home, kept: Home, l: Label)
    requires Agrees(s, now, kept) && Enabled(s, l) && IsCommit(l)
    ensures Agrees(Next(s, l), now, KeptAfter(now, kept, s.lh, l))
  {
    if l.WriteLogBlock? || l.CommitHead? {
      LogStep(s, now, kept, l);
    } else {
      InstallStep(s, now, kept, l);
    }
  }

  lemma RecoveryStep(s: State, now: Home, kept: Home, l: Label)
    requires Agrees(s, now, kept) && Enabled(s, l) && !IsOperation(l) && !IsBuffer(l) && !IsCommit(l)
    ensures Agrees(Next(s, l), NowAfter(now, kept, l), kept)
  {
    match l
    case Crash => StepCrash(s, now, kept);
    case ReadHead => StepReadHead(s, now, kept);
    case RecoverBlock => StepRecoverBlock(s, now, kept, s.phase.done);
    case RecoverDone => StepRecoverDone(s, now, kept);
  }

  lemma AgreesStep(s: State, now: Home, kept: Home, l: Label)
    requires Agrees(s, now, kept) && Enabled(s, l)
    ensures Agrees(Next(s, l), NowAfter(now, kept, l), KeptAfter(now, kept, s.lh, l))
  {
    if IsOperation(l) {
      OperationStep(s, now, kept, l);
    } else if IsBuffer(l) {
      BufferStep(s, now, kept, l);
    } else if IsCommit(l) {
      CommitStep(s, now, kept, l);
    } else {
      RecoveryStep(s, now, kept, l);
    }
  }

  // ----- the history follows

  lemma OverlayLogged(vol: Home, loose: Home, b: nat)
    requires b in vol
    ensures Overlay(vol[b := Overlay(vol, loose)[b]], loose - {b}) == Overlay(vol, loose)
  {
  }

  lemma OverlayChanged(vol: Home, loose: Home, b: nat, v: Block)
    requires b in vol
    ensures Overlay(vol, loose[b := v]) == Overlay(vol, loose)[b := v]
  {
  }

  lemma OverlayEvicted(vol: Home, dur: Home, loose: Home, spoiled: Home, b: nat)
    requires b in vol && b in dur && vol[b] == dur[b]
    ensures var loose' := if b in spoiled then loose[b := spoiled[b]] else loose - {b};
      Overlay(vol, loose') == Overlay(vol, loose)[b := Overlay(dur, spoiled)[b]]
  {
  }

  lemma OverlayCommitted(vol: Home, dur: Home, loose: Home, spoiled: Home, lh: seq<nat>)
    requires SameExcept(vol, dur, lh)
    ensures Overlay(vol, Chosen(loose, spoiled, lh)) == Chosen(Overlay(vol, loose), Overlay(dur, spoiled), lh)
  {
  }

  /** What the history needs to know of the machine before a step. */
  ghost predicate Known(s: State, vol: Home, dur: Home, now: Home, l: Label) {
    && (l.Modify? || l.LogWrite? || l.Evict? ==> l.b in vol && l.b in dur)
    && (l.LogWrite? ==> s.phase.Running? && l.b in now && l.b in s.cache && s.cache[l.b] == now[l.b])
    && (l.Evict? ==> vol[l.b] == dur[l.b])
    && (l.CommitHead? ==> AllOutside(s.agents))
  }

  lemma StepKnown(s: State, h: History, l: Label)
    requires Inv(s, h) && Enabled(s, l)
    ensures Known(s, Volatile(h), Durable(h), Now(h), l)
  {
    if l.Modify? || l.LogWrite? {
      InsideIsRunning(s, l.a);
    }
    UnusedBounds(s.agents);
  }

  lemma OperationRecord(s: State, h: History, l: Label)
    requires Traced(h, s.agents) && Enabled(s, l) && IsOperation(l)
    ensures var g := Record(h, s, l);
      && Traced(g, Next(s, l).agents) && Durable(g) == Durable(h)
      && Volatile(g) == (if l.LogWrite? then Volatile(h)[l.b := s.cache[l.b]] else Volatile(h))
  {
    match l
    case Begin(a) => Appended(h, Began(a));
    case End(a) => Appended(h, Ended(a));
    case LogWrite(a, b) => Appended(h.(loose := h.loose - {b}), Wrote(a, b, s.cache[b]));
  }

  /** The history after a step: bracketed operations, and only logged blocks not yet durable. */
  lemma TracedStep(s: State, h: History, l: Label)
    requires Traced(h, s.agents) && Logging(s.phase, s.lh, Volatile(h), Durable(h)) && Enabled(s, l)
    requires Known(s, Volatile(h), Durable(h), Now(h), l)
    ensures var g, t := Record(h, s, l), Next(s, l);
      Traced(g, t.agents) && Logging(t.phase, t.lh, Volatile(g), Durable(g))
  {
    if IsOperation(l) {
      OperationRecord(s, h, l);
    } else if l.CommitHead? {
      assert h.trace[..|h.trace|] == h.trace;
      assert Open(h.trace) == {};
    } else if l.Crash? {
      assert h.trace[..h.durable][..h.durable] == h.trace[..h.durable];
    }
  }

  lemma OperationContent(s: State, h: History, l: Label)
    requires Traced(h, s.agents) && Enabled(s, l) && IsOperation(l)
    requires Known(s, Volatile(h), Durable(h), Now(h), l)
    ensures var g := Record(h, s, l); g.durable <= |g.trace| && Now(g) == Now(h) && Kept(g) == Kept(h)
  {
    OperationRecord(s, h, l);
    if l.LogWrite? { OverlayLogged(Volatile(h), h.loose, l.b); }
  }

  lemma CommitContent(h: History, s: State)
    requires h.durable <= |h.trace| && SameExcept(Volatile(h), Durable(h), s.lh)
    ensures var g := Record(h, s, CommitHead); Now(g) == Now(h) && Kept(g) == Chosen(Now(h), Kept(h), s.lh)
  {
    assert h.trace[..|h.trace|] == h.trace;
    OverlayCommitted(Volatile(h), Durable(h), h.loose, h.spoiled, s.lh);
  }

  lemma CrashContent(h: History, s: State)
    requires h.durable <= |h.trace|
    ensures var g := Record(h, s, Crash); Now(g) == Kept(h) && Kept(g) == Kept(h)
  {
    assert h.trace[..h.durable][..h.durable] == h.trace[..h.durable];
  }

  lemma ContentStep(s: State, h: History, l: Label)
    requires Traced(h, s.agents) && Logging(s.phase, s.lh, Volatile(h), Durable(h)) && Enabled(s, l)
    requires Known(s, Volatile(h), Durable(h), Now(h), l)
    ensures var g := Record(h, s, l);
      && g.durable <= |g.trace| && Now(g) == NowAfter(Now(h), Kept(h), l)
      && Kept(g) == KeptAfter(Now(h), Kept(h), s.lh, l)
  {
    if IsOperation(l) {
      OperationContent(s, h, l);
    } else if l.CommitHead? {
      CommitContent(h, s);
    } else if l.Crash? {
      CrashContent(h, s);
    } else if l.Evict? {
      OverlayEvicted(Volatile(h), Durable(h), h.loose, h.spoiled, l.b);
    } else if l.Modify? {
      OverlayChanged(Volatile(h), h.loose, l.b, l.v);
    }
  }

  lemma InvStep(s: State, h: History, l: Label)
    requires Inv(s, h) && Enabled(s, l)
    ensures Inv(Next(s, l), Record(h, s, l))
  {
    StepKnown(s, h, l);
    AgreesStep(s, Now(h), Kept(h), l);
    TracedStep(s, h, l);
    ContentStep(s, h, l);
  }
}
