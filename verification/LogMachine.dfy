/**
 * The logging protocol as a machine over single block writes: file-system operations of any
 * number of processes, cache traffic, the steps of a group commit, crashes, and the steps of
 * recovery, interleaved in any order the code allows.
 */
module LogMachine {
  const LOGSIZE := 30
  const MAXOPBLOCKS := 10

  datatype Block = Block(words: seq<nat>)
  type Home = map<nat, Block>

  /** The device: block numbers in the log header, the log's data blocks, and all other blocks. */
  datatype Disk = Disk(head: seq<nat>, slots: seq<Block>, home: Home)

  /** A process outside any operation, or inside one that has added `added` blocks to the log. */
  datatype Agent = Outside | Inside(added: nat)

  datatype Phase =
    | Running                   // operations may run
    | WritingLog(done: nat)     // `write_log` has copied `done` blocks
    | Installing(done: nat)     // the header is on disk; `install_trans(0)` has installed `done`
    | Committed                 // the header has been cleared; `committing` is still set
    | Booting                   // after power-on, before `read_head`
    | Recovering(done: nat)     // `install_trans(1)` has installed `done`

  /**
   * `cache` holds the valid buffers of home blocks, `pins` the references taken by `bpin`, per block,
   * `locked` the sleep-lock holders, and `unlogged` the buffers changed since they were last
   * logged, installed or read from the disk.
   */
  datatype State = State(
    disk: Disk,
    cache: Home,
    lh: seq<nat>,
    pins: map<nat, nat>,
    locked: map<nat, nat>,
    unlogged: set<nat>,
    agents: seq<Agent>,
    outstanding: nat,
    phase: Phase)

  datatype Label =
    | Begin(a: nat) | End(a: nat)
    | Bread(a: nat, b: nat) | Modify(a: nat, b: nat, v: Block)
    | LogWrite(a: nat, b: nat) | Brelse(a: nat, b: nat)
    | Evict(b: nat)
    | WriteLogBlock | CommitHead | InstallBlock | ClearHead | CommitDone
    | Crash
    | ReadHead | RecoverBlock | RecoverDone

  /** What `bread` delivers for home block `b`. */
  function Look(cache: Home, home: Home, b: nat): Block
    requires b in home
  {
    if b in cache then cache[b] else home[b]
  }

  function Pins(pins: map<nat, nat>, b: nat): nat {
    if b in pins then pins[b] else 0
  }

  function Unpin(pins: map<nat, nat>, b: nat): map<nat, nat> {
    if Pins(pins, b) == 0 then pins else pins[b := pins[b] - 1]
  }

  /** The two tests at the top of `log_write` that end in `panic("too big a transaction")`. */
  predicate LogWritePanics(s: State) {
    |s.lh| >= LOGSIZE || |s.lh| >= |s.disk.slots|
  }

  /** The waiting test of `begin_op`. */
  predicate BeginMustWait(s: State) {
    s.phase != Running || |s.lh| + (s.outstanding + 1) * MAXOPBLOCKS > LOGSIZE
  }

  predicate Holds(s: State, a: nat, b: nat) {
    b in s.locked && s.locked[b] == a
  }

  predicate InOp(s: State, a: nat) {
    a < |s.agents| && s.agents[a].Inside?
  }

  /**
   * When a step can be taken.  Besides the code's own tests this holds the discipline of the
   * callers of the log: buffers are changed inside an operation and under the buffer's lock; an
   * operation adds at most MAXOPBLOCKS blocks, and releases its buffers before it ends.  A changed
   * buffer may be released without `log_write`, as `writei` does after a failed copy.
   */
  ghost predicate Enabled(s: State, l: Label) {
    match l
    case Begin(a) => a < |s.agents| && s.agents[a].Outside? && !BeginMustWait(s)
    case End(a) => InOp(s, a) && s.phase.Running? && s.outstanding > 0 && a !in s.locked.Values
    case Bread(a, b) =>
      a < |s.agents| && b in s.disk.home && b !in s.locked && !s.phase.Booting? && !s.phase.Recovering?
    case Modify(a, b, v) => InOp(s, a) && Holds(s, a, b)
    case LogWrite(a, b) =>
      && InOp(s, a) && Holds(s, a, b) && b in s.cache && !LogWritePanics(s)
      && (b in s.lh || s.agents[a].added < MAXOPBLOCKS)
    case Brelse(a, b) => Holds(s, a, b)
    case Evict(b) => b in s.cache && Pins(s.pins, b) == 0 && b !in s.locked
    case WriteLogBlock =>
      && s.phase.WritingLog? && s.phase.done < |s.lh| && s.phase.done < |s.disk.slots|
      && s.lh[s.phase.done] in s.disk.home && s.lh[s.phase.done] !in s.locked
    case CommitHead => s.phase.WritingLog? && s.phase.done == |s.lh| && |s.lh| > 0
    case InstallBlock =>
      && s.phase.Installing? && s.phase.done < |s.lh| && s.phase.done < |s.disk.slots|
      && s.lh[s.phase.done] !in s.locked
    case ClearHead => s.phase.Installing? && s.phase.done == |s.lh|
    case CommitDone => s.phase.Committed? || (s.phase.WritingLog? && |s.lh| == 0)
    case Crash => true
    case ReadHead => s.phase.Booting?
    case RecoverBlock => s.phase.Recovering? && s.phase.done < |s.lh| && s.phase.done < |s.disk.slots|
    case RecoverDone => s.phase.Recovering? && s.phase.done == |s.lh|
  }

  function AfterLogWrite(s: State, a: nat, b: nat): State
    requires InOp(s, a)
  {
    if b in s.lh then s.(unlogged := s.unlogged - {b})   // absorption
    else s.(lh := s.lh + [b],
            pins := s.pins[b := Pins(s.pins, b) + 1],
            unlogged := s.unlogged - {b},
            agents := s.agents[a := Inside(s.agents[a].added + 1)])
  }

  /** `to <- cache copy of lh[i]; bwrite(to)` in `write_log`. */
  function LogCopied(s: State, i: nat): State
    requires i < |s.lh| && i < |s.disk.slots| && s.lh[i] in s.disk.home
  {
    s.(disk := s.disk.(slots := s.disk.slots[i := Look(s.cache, s.disk.home, s.lh[i])]))
  }

  /** `dbuf <- log block i; bwrite(dbuf)` in `install_trans`. */
  function Installed(s: State, i: nat): State
    requires i < |s.lh| && i < |s.disk.slots|
  {
    s.(disk := s.disk.(home := s.disk.home[s.lh[i] := s.disk.slots[i]]),
       cache := s.cache[s.lh[i] := s.disk.slots[i]], unlogged := s.unlogged - {s.lh[i]})
  }

  function Crashed(s: State): State {
    Start(s.disk, |s.agents|)
  }

  function Start(d: Disk, agents: nat): State {
    State(d, map[], [], map[], map[], {}, seq(agents, _ => Outside), 0, Booting)
  }

  ghost function Next(s: State, l: Label): State
    requires Enabled(s, l)
  {
    match l
    case Begin(a) => s.(agents := s.agents[a := Inside(0)], outstanding := s.outstanding + 1)
    case End(a) =>
      s.(agents := s.agents[a := Outside], outstanding := s.outstanding - 1,
         phase := if s.outstanding == 1 then WritingLog(0) else Running)
    case Bread(a, b) =>
      s.(cache := s.cache[b := Look(s.cache, s.disk.home, b)], locked := s.locked[b := a])
    case Modify(a, b, v) => s.(cache := s.cache[b := v], unlogged := s.unlogged + {b})
    case LogWrite(a, b) => AfterLogWrite(s, a, b)
    case Brelse(a, b) => s.(locked := s.locked - {b})
    case Evict(b) => s.(cache := s.cache - {b}, unlogged := s.unlogged - {b})
    case WriteLogBlock => LogCopied(s, s.phase.done).(phase := WritingLog(s.phase.done + 1))
    case CommitHead => s.(disk := s.disk.(head := s.lh), phase := Installing(0))
    case InstallBlock =>
      Installed(s, s.phase.done).(
        pins := Unpin(s.pins, s.lh[s.phase.done]), phase := Installing(s.phase.done + 1))
    case ClearHead => s.(disk := s.disk.(head := []), lh := [], phase := Committed)
    case CommitDone => s.(phase := Running)
    case Crash => Crashed(s)
    case ReadHead => s.(lh := s.disk.head, phase := Recovering(0))
    case RecoverBlock => Installed(s, s.phase.done).(phase := Recovering(s.phase.done + 1))
    case RecoverDone => s.(disk := s.disk.(head := []), lh := [], phase := Running)
  }

  // ----- reservations

  function Active(agents: seq<Agent>): nat {
    if agents == [] then 0
    else Active(agents[..|agents| - 1]) + (if agents[|agents| - 1].Inside? then 1 else 0)
  }

  function Left(x: Agent): int {
    if x.Inside? then MAXOPBLOCKS - x.added else 0
  }

  /** Log blocks promised to running operations and not yet used by them. */
  function Unused(agents: seq<Agent>): int {
    if agents == [] then 0
    else Unused(agents[..|agents| - 1]) + Left(agents[|agents| - 1])
  }

  lemma {:induction false} UpdateAgent(agents: seq<Agent>, a: nat, x: Agent)
    requires a < |agents|
    ensures Unused(agents[a := x]) == Unused(agents) - Left(agents[a]) + Left(x)
    ensures Active(agents[a := x]) == Active(agents) - (if agents[a].Inside? then 1 else 0) + (if x.Inside? then 1
      else 0)
  {
    var n := |agents| - 1;
    if a < n {
      UpdateAgent(agents[..n], a, x);
      assert agents[a := x][..n] == agents[..n][a := x];
    } else {
      assert agents[a := x][..n] == agents[..n];
    }
  }

  ghost predicate Within(agents: seq<Agent>) {
    forall i :: 0 <= i < |agents| ==> agents[i].Inside? ==> agents[i].added <= MAXOPBLOCKS
  }

  ghost predicate AllOutside(agents: seq<Agent>) {
    forall i :: 0 <= i < |agents| ==> agents[i].Outside?
  }

  lemma {:induction false} UnusedBounds(agents: seq<Agent>)
    requires Within(agents)
    ensures 0 <= Unused(agents) <= MAXOPBLOCKS * Active(agents)
    ensures forall i :: 0 <= i < |agents| ==> Left(agents[i]) <= Unused(agents)
    ensures AllOutside(agents) <==> Active(agents) == 0
  {
    if agents != [] {
      UnusedBounds(agents[..|agents| - 1]);
      assert forall i :: 0 <= i < |agents| - 1 ==> agents[..|agents| - 1][i] == agents[i];
    }
  }
}
