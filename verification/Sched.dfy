/** The scheduler, sleep and wakeup of kernel/proc.c as interleaved steps of CPUs that hand process locks over. */
module Sched {
  datatype Mode = Unused | Runnable | Running | Sleeping | Zombie

  /** Where a parked process goes on: it yielded or never ran, it slept on a channel, or it exited. */
  datatype Then = Plain | Slept(ch: nat) | Dead

  /** Control of a process in the kernel. */
  datatype Pc =
    | Free                      // ordinary code, no lock
    | Has(k: nat)               // holds the lock of some conditions
    | Sleep1(ch: nat)           // in sleep on a channel, holds its lock and its own p->lock
    | Sleep2(ch: nat)           // has released the condition's lock
    | Parking(to: Then)         // state changed, in sched before swtch completes, still on its stack
    | Out(to: Then)             // context saved
    | Resumed(to: Then)         // back on its stack, still holding the p->lock the scheduler took
    | Relock(ch: nat)           // at the end of sleep, takes the condition's lock again
    | Wake(ch: nat, i: nat)     // in wakeup, about to look at process i

  /** An interrupt handler on a CPU: none, holding a condition's lock, or in wakeup under it. */
  datatype Handler = Quiet | Holding(k: nat) | Waking(ch: nat, i: nat)

  /** Who holds a condition's lock: a process, or the handler on a CPU. */
  datatype Owner = Proc(p: nat) | Irq(c: nat)

  datatype Where = Idle | Switching(p: nat) | On(p: nat) | Returned(p: nat)

  /**
   * guard gives the lock under which the condition of a channel is checked; one lock may guard several channels.
   * irq[c] is the handler on CPU c.  lock[p] is the CPU that holds p->lock or -1; lk maps a held condition lock to
   * its owner.
   */
  datatype State = State(
    guard: nat -> nat, cpus: seq<Where>, irq: seq<Handler>, pc: seq<Pc>, st: seq<Mode>, chan: seq<nat>,
    lock: seq<int>, lk: map<nat, Owner>)

  datatype Label =
    | Choose(c: nat, p: nat)    // scheduler: acquire, find RUNNABLE, mark RUNNING
    | SwitchIn(c: nat)
    | Resume(c: nat)            // the process releases its own lock
    | AcquireLk(c: nat, k: nat)
    | ReleaseLk(c: nat)
    | SleepLock(c: nat, ch: nat) // acquire(&p->lock) in sleep
    | SleepRelease(c: nat)      // release(lk)
    | SleepMark(c: nat)         // channel and SLEEPING state are set
    | YieldMark(c: nat)
    | ExitMark(c: nat)
    | SwitchOut(c: nat)
    | Back(c: nat)              // scheduler: the process is done for now, its lock is released
    | WakeStart(c: nat, ch: nat)
    | WakeStep(c: nat)
    | WakeEnd(c: nat)
    | Kill(c: nat, i: nat)
    | Reap(c: nat, i: nat)      // wait: freeproc of a zombie
    | Spawn(c: nat, i: nat)     // fork: a free slot becomes runnable
    | IrqLock(c: nat, k: nat)   // an interrupt handler takes the lock of some conditions
    | IrqWake(c: nat, ch: nat)
    | IrqStep(c: nat)
    | IrqWoken(c: nat)
    | IrqUnlock(c: nat)

  /** No handler runs on the CPU. */
  predicate Undisturbed(s: State, c: nat) {
    |s.irq| == |s.cpus| && c < |s.cpus| && s.irq[c].Quiet?
  }

  /** Interrupts are on: the scheduler looks for work, or a process runs without a spinlock. */
  predicate Interruptible(w: Where, pc: seq<Pc>) {
    w.Idle? || (w.On? && w.p < |pc| && (pc[w.p] == Free || pc[w.p].Relock?))
  }

  predicate OnCpu(s: State, c: nat) {
    && |s.pc| == |s.st| == |s.chan| == |s.lock| && Undisturbed(s, c)
    && s.cpus[c].On? && s.cpus[c].p < |s.pc|
  }

  /** Process `i` can be looked at under its own lock. */
  predicate Lockable(s: State, i: nat) {
    |s.pc| == |s.st| == |s.chan| == |s.lock| && i < |s.pc| && s.lock[i] == -1
  }

  predicate Enabled(s: State, l: Label) {
    match l
    case Choose(c, p) => Undisturbed(s, c) && s.cpus[c].Idle? && Lockable(s, p) && s.st[p].Runnable?
    case SwitchIn(c) => Undisturbed(s, c) && s.cpus[c].Switching? && s.cpus[c].p < |s.pc| && s.pc[s.cpus[c].p].Out?
    case Resume(c) => OnCpu(s, c) && s.pc[s.cpus[c].p].Resumed?
    case AcquireLk(c, k) =>
      && OnCpu(s, c) && k !in s.lk
      && (s.pc[s.cpus[c].p] == Free || (s.pc[s.cpus[c].p].Relock? && s.guard(s.pc[s.cpus[c].p].ch) == k))
    case ReleaseLk(c) => OnCpu(s, c) && s.pc[s.cpus[c].p].Has?
    case SleepLock(c, ch) => OnCpu(s, c) && s.pc[s.cpus[c].p] == Has(s.guard(ch)) && s.lock[s.cpus[c].p] == -1
    case SleepRelease(c) => OnCpu(s, c) && s.pc[s.cpus[c].p].Sleep1?
    case SleepMark(c) => OnCpu(s, c) && s.pc[s.cpus[c].p].Sleep2?
    case YieldMark(c) => OnCpu(s, c) && s.pc[s.cpus[c].p] == Free && s.lock[s.cpus[c].p] == -1
    case ExitMark(c) => OnCpu(s, c) && s.pc[s.cpus[c].p] == Free && s.lock[s.cpus[c].p] == -1
    case SwitchOut(c) => OnCpu(s, c) && s.pc[s.cpus[c].p].Parking?
    case Back(c) => Undisturbed(s, c) && s.cpus[c].Returned? && s.cpus[c].p < |s.lock|
    case WakeStart(c, ch) => OnCpu(s, c) && s.pc[s.cpus[c].p] == Has(s.guard(ch))
    case WakeStep(c) =>
      && OnCpu(s, c) && s.pc[s.cpus[c].p].Wake? && s.pc[s.cpus[c].p].i < |s.pc|
      && (s.pc[s.cpus[c].p].i != s.cpus[c].p ==> Lockable(s, s.pc[s.cpus[c].p].i))
    case WakeEnd(c) => OnCpu(s, c) && s.pc[s.cpus[c].p].Wake? && s.pc[s.cpus[c].p].i >= |s.pc|
    case Kill(c, i) => OnCpu(s, c) && s.pc[s.cpus[c].p] == Free && Lockable(s, i)
    case Reap(c, i) => OnCpu(s, c) && s.pc[s.cpus[c].p] == Free && Lockable(s, i) && s.st[i].Zombie?
    case Spawn(c, i) => OnCpu(s, c) && s.pc[s.cpus[c].p] == Free && Lockable(s, i) && s.st[i].Unused?
    case IrqLock(c, k) => Undisturbed(s, c) && Interruptible(s.cpus[c], s.pc) && k !in s.lk
    case IrqWake(c, ch) => InIrq(s, c) && s.irq[c] == Holding(s.guard(ch))
    case IrqStep(c) =>
      && InIrq(s, c) && s.irq[c].Waking? && s.irq[c].i < |s.pc|
      && (!Mine(s.cpus[c], s.irq[c].i) ==> Lockable(s, s.irq[c].i))
    case IrqWoken(c) => InIrq(s, c) && s.irq[c].Waking? && s.irq[c].i >= |s.pc|
    case IrqUnlock(c) => InIrq(s, c) && s.irq[c].Holding?
  }

  predicate InIrq(s: State, c: nat) {
    |s.pc| == |s.st| == |s.chan| == |s.lock| && |s.irq| == |s.cpus| && c < |s.cpus|
  }

  /** Process `i` is the interrupted one, which wakeup passes over. */
  predicate Mine(w: Where, i: nat) {
    w.On? && w.p == i
  }

  predicate OfHandler(l: Label) {
    l.IrqLock? || l.IrqWake? || l.IrqStep? || l.IrqWoken? || l.IrqUnlock?
  }

  /** A step of an interrupt handler. */
  function Handled(s: State, l: Label): State
    requires Enabled(s, l) && OfHandler(l)
  {
    match l
    case IrqLock(c, k) => s.(lk := s.lk[k := Irq(c)], irq := s.irq[c := Holding(k)])
    case IrqWake(c, ch) => s.(irq := s.irq[c := Waking(ch, 0)])
    case IrqStep(c) =>
      var ch, i := s.irq[c].ch, s.irq[c].i;
      s.(irq := s.irq[c := Waking(ch, i + 1)],
         st := if !Mine(s.cpus[c], i) && s.st[i].Sleeping? && s.chan[i] == ch then s.st[i := Runnable] else s.st)
    case IrqWoken(c) => s.(irq := s.irq[c := Holding(s.guard(s.irq[c].ch))])
    case IrqUnlock(c) => s.(lk := s.lk - {s.irq[c].k}, irq := s.irq[c := Quiet])
  }

  function Next(s: State, l: Label): State
    requires Enabled(s, l)
  {
    if OfHandler(l) then Handled(s, l) else Moved(s, l)
  }

  /** A step of the scheduler or of a process. */
  function Moved(s: State, l: Label): State
    requires Enabled(s, l) && !OfHandler(l)
  {
    match l
    case Choose(c, p) => s.(lock := s.lock[p := c], st := s.st[p := Running], cpus := s.cpus[c := Switching(p)])
    case SwitchIn(c) => var p := s.cpus[c].p; s.(cpus := s.cpus[c := On(p)], pc := s.pc[p := Resumed(s.pc[p].to)])
    case Resume(c) =>
      var p := s.cpus[c].p;
      var t := s.pc[p].to;
      s.(lock := s.lock[p := -1], pc := s.pc[p := if t.Slept? then Relock(t.ch) else Free],
         chan := if t.Slept? then s.chan[p := 0] else s.chan)
    case AcquireLk(c, k) => var p := s.cpus[c].p; s.(lk := s.lk[k := Proc(p)], pc := s.pc[p := Has(k)])
    case ReleaseLk(c) => var p := s.cpus[c].p; s.(lk := s.lk - {s.pc[p].k}, pc := s.pc[p := Free])
    case SleepLock(c, ch) => var p := s.cpus[c].p; s.(lock := s.lock[p := c], pc := s.pc[p := Sleep1(ch)])
    case SleepRelease(c) =>
      var p := s.cpus[c].p; s.(lk := s.lk - {s.guard(s.pc[p].ch)}, pc := s.pc[p := Sleep2(s.pc[p].ch)])
    case SleepMark(c) =>
      var p := s.cpus[c].p;
      s.(chan := s.chan[p := s.pc[p].ch], st := s.st[p := Sleeping], pc := s.pc[p := Parking(Slept(s.pc[p].ch))])
    case YieldMark(c) =>
      var p := s.cpus[c].p; s.(lock := s.lock[p := c], st := s.st[p := Runnable], pc := s.pc[p := Parking(Plain)])
    case ExitMark(c) =>
      var p := s.cpus[c].p; s.(lock := s.lock[p := c], st := s.st[p := Zombie], pc := s.pc[p := Parking(Dead)])
    case SwitchOut(c) => var p := s.cpus[c].p; s.(cpus := s.cpus[c := Returned(p)], pc := s.pc[p := Out(s.pc[p].to)])
    case Back(c) => s.(lock := s.lock[s.cpus[c].p := -1], cpus := s.cpus[c := Idle])
    case WakeStart(c, ch) => var p := s.cpus[c].p; s.(pc := s.pc[p := Wake(ch, 0)])
    case WakeStep(c) =>
      var p := s.cpus[c].p;
      var ch, i := s.pc[p].ch, s.pc[p].i;
      s.(pc := s.pc[p := Wake(ch, i + 1)],
         st := if i != p && s.st[i].Sleeping? && s.chan[i] == ch then s.st[i := Runnable] else s.st)
    case WakeEnd(c) => var p := s.cpus[c].p; s.(pc := s.pc[p := Has(s.guard(s.pc[p].ch))])
    case Kill(c, i) => if s.st[i].Sleeping? then s.(st := s.st[i := Runnable]) else s
    case Reap(c, i) => s.(st := s.st[i := Unused], chan := s.chan[i := 0])
    case Spawn(c, i) => s.(st := s.st[i := Runnable], pc := s.pc[i := Out(Plain)])
  }

  // ---------------------------------------------------------------- invariant

  /** The CPU runs on the stack of its process, or is about to. */
  predicate Uses(w: Where) {
    w.Switching? || w.On?
  }

  /** Control of a process that called exit. */
  predicate Gone(pc: Pc) {
    pc == Parking(Dead) || pc == Out(Dead) || pc == Resumed(Dead)
  }

  predicate Locked(pc: Pc) {
    pc.Sleep1? || pc.Sleep2? || pc.Parking? || pc.Resumed?
  }

  predicate HoldsLock(w: Where, pc: Pc) {
    w.Switching? || w.Returned? || (w.On? && Locked(pc))
  }

  predicate HoldsLk(pc: Pc) {
    pc.Has? || pc.Sleep1? || pc.Wake?
  }

  /** From the release of the condition's lock in sleep until it is woken. */
  predicate Asleep(pc: Pc, st: Mode, chan: nat, ch: nat) {
    pc == Sleep2(ch) || (st.Sleeping? && chan == ch)
  }

  /** home[p] is the CPU that uses p, or -1. */
  ghost predicate Homes(cpus: seq<Where>, home: seq<int>) {
    && (forall c: nat :: c < |cpus| && Uses(cpus[c]) ==> cpus[c].p < |home| && home[cpus[c].p] == c)
    && (forall p: nat :: p < |home| && home[p] != -1 ==>
          0 <= home[p] < |cpus| && Uses(cpus[home[p]]) && cpus[home[p]].p == p)
  }

  ghost predicate Locks(cpus: seq<Where>, pc: seq<Pc>, lock: seq<int>) {
    && |pc| == |lock|
    && (forall c: nat :: c < |cpus| && !cpus[c].Idle? ==>
          cpus[c].p < |pc| && (HoldsLock(cpus[c], pc[cpus[c].p]) ==> lock[cpus[c].p] == c))
  }

  /** A process lock is held only by the CPU that deals with the process. */
  ghost predicate LocksOnly(cpus: seq<Where>, pc: seq<Pc>, lock: seq<int>) {
    && |pc| == |lock|
    && forall p: nat :: p < |lock| && lock[p] != -1 ==>
         && 0 <= lock[p] < |cpus| && !cpus[lock[p]].Idle? && cpus[lock[p]].p == p && HoldsLock(cpus[lock[p]], pc[p])
  }

  ghost predicate Modes(pc: seq<Pc>, st: seq<Mode>, home: seq<int>) {
    && |pc| == |st| == |home|
    && (forall p: nat :: p < |pc| ==> (home[p] == -1 ==> pc[p].Out? && !st[p].Running?))
    && (forall p: nat :: p < |pc| ==> (home[p] != -1 && !pc[p].Parking? ==> st[p].Running?))
    && (forall p: nat :: p < |pc| ==> (pc[p].Parking? ==> !st[p].Running?))
    && (forall p: nat :: p < |pc| ==> (Gone(pc[p]) ==> st[p].Zombie? || st[p].Unused?))
  }

  ghost predicate Stations(cpus: seq<Where>, pc: seq<Pc>) {
    && (forall c: nat :: c < |cpus| ==> (cpus[c].On? && cpus[c].p < |pc| ==> !pc[cpus[c].p].Out?))
    && (forall c: nat :: c < |cpus| ==> (cpus[c].Switching? && cpus[c].p < |pc| ==> pc[cpus[c].p].Out?))
  }

  /** The condition lock that goes with this control. */
  function LkOf(guard: nat -> nat, pc: Pc): nat
    requires HoldsLk(pc)
  {
    if pc.Has? then pc.k else guard(pc.ch)
  }

  function IrqLk(guard: nat -> nat, h: Handler): nat
    requires !h.Quiet?
  {
    if h.Holding? then h.k else guard(h.ch)
  }

  predicate Owns(guard: nat -> nat, pc: seq<Pc>, irq: seq<Handler>, o: Owner, k: nat) {
    match o
    case Proc(p) => p < |pc| && HoldsLk(pc[p]) && LkOf(guard, pc[p]) == k
    case Irq(c) => c < |irq| && !irq[c].Quiet? && IrqLk(guard, irq[c]) == k
  }

  /** Condition locks are held by the processes and handlers whose control says so, and only by them. */
  ghost predicate LkHeld(guard: nat -> nat, pc: seq<Pc>, irq: seq<Handler>, lk: map<nat, Owner>) {
    && (forall p: nat :: p < |pc| && HoldsLk(pc[p]) ==>
          LkOf(guard, pc[p]) in lk && lk[LkOf(guard, pc[p])] == Proc(p))
    && (forall c: nat :: c < |irq| && !irq[c].Quiet? ==>
          IrqLk(guard, irq[c]) in lk && lk[IrqLk(guard, irq[c])] == Irq(c))
    && (forall k: nat :: k in lk ==> Owns(guard, pc, irq, lk[k], k))
  }

  /** A handler runs only where interrupts were on. */
  ghost predicate Handlers(cpus: seq<Where>, irq: seq<Handler>, pc: seq<Pc>) {
    && |irq| == |cpus|
    && forall c: nat :: c < |irq| && !irq[c].Quiet? ==> Interruptible(cpus[c], pc)
  }

  /** A wakeup that has reached process i has left no process before i asleep on its channel. */
  ghost predicate WakeDone(pc: seq<Pc>, st: seq<Mode>, chan: seq<nat>) {
    && |pc| == |st| == |chan|
    && forall q: nat, p: nat :: q < |pc| && p < |pc| && pc[q].Wake? && p < pc[q].i ==>
        !Asleep(pc[p], st[p], chan[p], pc[q].ch)
  }

  /** The same for a wakeup by a handler. */
  ghost predicate IrqDone(irq: seq<Handler>, pc: seq<Pc>, st: seq<Mode>, chan: seq<nat>) {
    && |pc| == |st| == |chan|
    && forall c: nat, p: nat :: c < |irq| && p < |pc| && irq[c].Waking? && p < irq[c].i ==>
        !Asleep(pc[p], st[p], chan[p], irq[c].ch)
  }

  ghost predicate Inv(s: State, home: seq<int>) {
    && Homes(s.cpus, home)
    && Locks(s.cpus, s.pc, s.lock)
    && LocksOnly(s.cpus, s.pc, s.lock)
    && Modes(s.pc, s.st, home)
    && Stations(s.cpus, s.pc)
    && LkHeld(s.guard, s.pc, s.irq, s.lk)
    && Handlers(s.cpus, s.irq, s.pc)
    && WakeDone(s.pc, s.st, s.chan)
    && IrqDone(s.irq, s.pc, s.st, s.chan)
  }
}
