/** Every step keeps the scheduling invariant; what follows for every run. */
module SchedRuns {
  import opened Sched

  /** The CPU each process uses after a step. */
  ghost function Home(s: State, home: seq<int>, l: Label): seq<int>
    requires Enabled(s, l)
  {
    match l
    case Choose(c, p) => if p < |home| then home[p := c] else home
    case SwitchOut(c) => if s.cpus[c].p < |home| then home[s.cpus[c].p := -1] else home
    case _ => home
  }

  /** A RUNNABLE, SLEEPING, ZOMBIE or UNUSED process whose lock is free is on no CPU. */
  lemma UnlockedIsOut(s: State, home: seq<int>, p: nat)
    requires Inv(s, home) && Lockable(s, p)
    ensures !s.st[p].Running? ==> home[p] == -1 && s.pc[p].Out?
    ensures home[p] != -1 ==> !s.pc[p].Parking? && !s.pc[p].Sleep2?
  {
    if home[p] != -1 {
      assert !HoldsLock(s.cpus[home[p]], s.pc[p]);
    }
  }

  // ---------------------------------------------------------------- one step

  /** A step of the process on a CPU. */
  predicate OfProcess(l: Label) {
    !l.Choose? && !l.SwitchIn? && !l.Back? && !OfHandler(l)
  }

  /** The process that a handler's wakeup looks at is off its stack, or running and not between the locks of sleep. */
  predicate Facing(s: State, home: seq<int>, c: nat) {
    && |s.pc| == |s.st| == |home| && c < |s.irq| && s.irq[c].Waking? && s.irq[c].i < |home|
    && var i := s.irq[c].i;
      !s.pc[i].Sleep2? && (if s.st[i].Running? then true else home[i] == -1 && s.pc[i].Out?)
  }

  /** What the parts of the invariant say together about the process of a step. */
  ghost predicate Facts(s: State, home: seq<int>, l: Label) {
    && |s.pc| == |s.st| == |s.chan| == |s.lock| == |home|
    && (l.Choose? ==> l.p < |home| && home[l.p] == -1 && s.pc[l.p].Out?)
    && (l.Kill? || l.Reap? || l.Spawn? ==>
          l.i < |home| && (!s.st[l.i].Running? ==> home[l.i] == -1 && s.pc[l.i].Out?))
    && (OfProcess(l) ==>
          && l.c < |s.cpus| && s.cpus[l.c].On? && s.cpus[l.c].p < |home| && home[s.cpus[l.c].p] == l.c
          && (!s.pc[s.cpus[l.c].p].Parking? ==> s.st[s.cpus[l.c].p].Running?))
    && (l.SwitchIn? ==>
          && l.c < |s.cpus| && s.cpus[l.c].Switching?
          && s.cpus[l.c].p < |home| && home[s.cpus[l.c].p] == l.c)
    && (l.Back? ==> l.c < |s.cpus| && s.cpus[l.c].Returned? && s.cpus[l.c].p < |home|)
    && (l.IrqStep? ==> Facing(s, home, l.c))
  }

  lemma StepFacts(s: State, home: seq<int>, l: Label)
    requires Inv(s, home) && Enabled(s, l)
    ensures Facts(s, home, l)
  {
    if l.Choose? {
      UnlockedIsOut(s, home, l.p);
    } else if l.Kill? || l.Reap? || l.Spawn? {
      UnlockedIsOut(s, home, l.i);
    } else if l.IrqStep? && !Mine(s.cpus[l.c], s.irq[l.c].i) {
      UnlockedIsOut(s, home, s.irq[l.c].i);
    }
  }

  lemma HomesStep(s: State, home: seq<int>, l: Label)
    requires Homes(s.cpus, home) && Facts(s, home, l) && Enabled(s, l)
    requires !OfHandler(l)
    ensures Homes(Moved(s, l).cpus, Home(s, home, l))
  {
  }

  /** A change of control that neither takes nor gives up the process's lock. */
  lemma LocksKept(cpus: seq<Where>, pc: seq<Pc>, lock: seq<int>, p: nat, x: Pc)
    requires Locks(cpus, pc, lock) && LocksOnly(cpus, pc, lock) && p < |pc| && Locked(x) == Locked(pc[p])
    ensures Locks(cpus, pc[p := x], lock) && LocksOnly(cpus, pc[p := x], lock)
  {
  }

  predicate ChangesLock(l: Label) {
    l.Choose? || l.SwitchIn? || l.Resume? || l.SleepLock? || l.YieldMark? || l.ExitMark? || l.SwitchOut? || l.Back?
  }

  lemma LocksChange(s: State, home: seq<int>, l: Label)
    requires Homes(s.cpus, home) && Locks(s.cpus, s.pc, s.lock) && Facts(s, home, l) && Enabled(s, l) && ChangesLock(l)
    requires !OfHandler(l)
    ensures Locks(Moved(s, l).cpus, Moved(s, l).pc, Moved(s, l).lock)
  {
  }

  lemma LocksOnlyChange(s: State, home: seq<int>, l: Label)
    requires Homes(s.cpus, home) && Locks(s.cpus, s.pc, s.lock) && LocksOnly(s.cpus, s.pc, s.lock)
    requires Facts(s, home, l) && Enabled(s, l) && ChangesLock(l)
    requires !OfHandler(l)
    ensures LocksOnly(Moved(s, l).cpus, Moved(s, l).pc, Moved(s, l).lock)
  {
  }

  lemma LocksStep(s: State, home: seq<int>, l: Label)
    requires Homes(s.cpus, home) && Locks(s.cpus, s.pc, s.lock) && LocksOnly(s.cpus, s.pc, s.lock)
    requires Facts(s, home, l) && Enabled(s, l)
    requires !OfHandler(l)
    ensures Locks(Moved(s, l).cpus, Moved(s, l).pc, Moved(s, l).lock)
    ensures LocksOnly(Moved(s, l).cpus, Moved(s, l).pc, Moved(s, l).lock)
  {
    if ChangesLock(l) {
      LocksChange(s, home, l);
      LocksOnlyChange(s, home, l);
    } else if !l.Kill? && !l.Reap? {
      var p := if l.Spawn? then l.i else s.cpus[l.c].p;
      LocksKept(s.cpus, s.pc, s.lock, p, Moved(s, l).pc[p]);
    }
  }

  lemma ModesSwitch(s: State, home: seq<int>, l: Label)
    requires Modes(s.pc, s.st, home) && Facts(s, home, l) && Enabled(s, l)
    requires l.Choose? || l.SwitchIn? || l.SwitchOut?
    requires !OfHandler(l)
    ensures Modes(Moved(s, l).pc, Moved(s, l).st, Home(s, home, l))
  {
  }

  lemma ModesOfOther(s: State, home: seq<int>, l: Label)
    requires Modes(s.pc, s.st, home) && Facts(s, home, l) && Enabled(s, l)
    requires l.Kill? || l.Reap? || l.Spawn?
    requires !OfHandler(l)
    ensures Modes(Moved(s, l).pc, Moved(s, l).st, Home(s, home, l))
  {
  }

  lemma ModesStep(s: State, home: seq<int>, l: Label)
    requires Modes(s.pc, s.st, home) && Facts(s, home, l) && Enabled(s, l)
    requires !OfHandler(l)
    ensures Modes(Moved(s, l).pc, Moved(s, l).st, Home(s, home, l))
  {
    if l.Choose? || l.SwitchIn? || l.SwitchOut? {
      ModesSwitch(s, home, l);
    } else if l.Kill? || l.Reap? || l.Spawn? {
      ModesOfOther(s, home, l);
    }
  }

  lemma StationsStep(s: State, home: seq<int>, l: Label)
    requires Homes(s.cpus, home) && Stations(s.cpus, s.pc) && Facts(s, home, l) && Enabled(s, l)
    requires !OfHandler(l)
    ensures Stations(Moved(s, l).cpus, Moved(s, l).pc)
  {
  }

  /** A process changes control and keeps the condition's lock it holds, or holds none. */
  lemma LkKept(guard: nat -> nat, pc: seq<Pc>, irq: seq<Handler>, lk: map<nat, Owner>, p: nat, x: Pc)
    requires LkHeld(guard, pc, irq, lk) && p < |pc| && HoldsLk(x) == HoldsLk(pc[p])
    requires HoldsLk(x) ==> LkOf(guard, x) == LkOf(guard, pc[p])
    ensures LkHeld(guard, pc[p := x], irq, lk)
  {
  }

  lemma LkTaken(guard: nat -> nat, pc: seq<Pc>, irq: seq<Handler>, lk: map<nat, Owner>, p: nat, k: nat)
    requires LkHeld(guard, pc, irq, lk) && p < |pc| && !HoldsLk(pc[p]) && k !in lk
    ensures LkHeld(guard, pc[p := Has(k)], irq, lk[k := Proc(p)])
  {
  }

  lemma LkGiven(guard: nat -> nat, pc: seq<Pc>, irq: seq<Handler>, lk: map<nat, Owner>, p: nat, x: Pc)
    requires LkHeld(guard, pc, irq, lk) && p < |pc| && HoldsLk(pc[p]) && !HoldsLk(x)
    ensures LkHeld(guard, pc[p := x], irq, lk - {LkOf(guard, pc[p])})
  {
  }

  lemma IrqKept(guard: nat -> nat, pc: seq<Pc>, irq: seq<Handler>, lk: map<nat, Owner>, c: nat, h: Handler)
    requires LkHeld(guard, pc, irq, lk) && c < |irq| && !irq[c].Quiet? && !h.Quiet?
    requires IrqLk(guard, h) == IrqLk(guard, irq[c])
    ensures LkHeld(guard, pc, irq[c := h], lk)
  {
  }

  lemma IrqTaken(guard: nat -> nat, pc: seq<Pc>, irq: seq<Handler>, lk: map<nat, Owner>, c: nat, k: nat)
    requires LkHeld(guard, pc, irq, lk) && c < |irq| && irq[c].Quiet? && k !in lk
    ensures LkHeld(guard, pc, irq[c := Holding(k)], lk[k := Irq(c)])
  {
  }

  lemma IrqGiven(guard: nat -> nat, pc: seq<Pc>, irq: seq<Handler>, lk: map<nat, Owner>, c: nat)
    requires LkHeld(guard, pc, irq, lk) && c < |irq| && irq[c].Holding?
    ensures LkHeld(guard, pc, irq[c := Quiet], lk - {irq[c].k})
  {
  }

  /** A step of a handler. */
  lemma LkHandled(s: State, l: Label)
    requires LkHeld(s.guard, s.pc, s.irq, s.lk) && Enabled(s, l) && OfHandler(l)
    ensures LkHeld(s.guard, s.pc, Handled(s, l).irq, Handled(s, l).lk)
  {
    var c := l.c;
    if l.IrqLock? {
      IrqTaken(s.guard, s.pc, s.irq, s.lk, c, l.k);
    } else if l.IrqUnlock? {
      IrqGiven(s.guard, s.pc, s.irq, s.lk, c);
    } else {
      IrqKept(s.guard, s.pc, s.irq, s.lk, c, Handled(s, l).irq[c]);
    }
  }

  lemma LkStep(s: State, home: seq<int>, l: Label)
    requires LkHeld(s.guard, s.pc, s.irq, s.lk) && Facts(s, home, l) && Enabled(s, l)
    requires !OfHandler(l)
    ensures LkHeld(s.guard, Moved(s, l).pc, Moved(s, l).irq, Moved(s, l).lk)
  {
    if l.Spawn? {
      LkKept(s.guard, s.pc, s.irq, s.lk, l.i, Out(Plain));
    } else if !l.Choose? && !l.Back? && !l.Kill? && !l.Reap? {
      var p := s.cpus[l.c].p;
      if l.AcquireLk? {
        LkTaken(s.guard, s.pc, s.irq, s.lk, p, l.k);
      } else if l.ReleaseLk? || l.SleepRelease? {
        LkGiven(s.guard, s.pc, s.irq, s.lk, p, Moved(s, l).pc[p]);
      } else {
        LkKept(s.guard, s.pc, s.irq, s.lk, p, Moved(s, l).pc[p]);
      }
    }
  }

  /** Only a CPU without a handler moves, and only a process that no other CPU runs. */
  lemma HandlersKept(cpus: seq<Where>, irq: seq<Handler>, pc: seq<Pc>, c: nat, w: Where, p: nat, x: Pc)
    requires Handlers(cpus, irq, pc) && c < |cpus| && irq[c].Quiet? && p < |pc|
    requires forall d: nat :: d < |cpus| && d != c ==> !Mine(cpus[d], p)
    ensures Handlers(cpus[c := w], irq, pc[p := x])
  {
  }

  lemma HandlersHandled(s: State, l: Label)
    requires Handlers(s.cpus, s.irq, s.pc) && Enabled(s, l) && OfHandler(l)
    ensures Handlers(s.cpus, Handled(s, l).irq, s.pc)
  {
  }

  lemma HandlersStep(s: State, home: seq<int>, l: Label)
    requires Handlers(s.cpus, s.irq, s.pc) && Homes(s.cpus, home) && Facts(s, home, l) && Enabled(s, l)
    requires !OfHandler(l)
    ensures Handlers(Moved(s, l).cpus, Moved(s, l).irq, Moved(s, l).pc)
  {
    var t := Moved(s, l);
    var p := if l.Choose? then l.p else if l.Spawn? then l.i else s.cpus[l.c].p;
    if l.Back? {
      assert t.cpus == s.cpus[l.c := Idle] && t.pc == s.pc;
    } else {
      HandlersKept(s.cpus, s.irq, s.pc, l.c, t.cpus[l.c], p, t.pc[p]);
      assert t.cpus == s.cpus[l.c := t.cpus[l.c]] && t.pc == s.pc[p := t.pc[p]];
    }
  }

  /** The process a wakeup looks at is not asleep on its channel afterwards. */
  lemma WakeDoneNext(pc: seq<Pc>, st: seq<Mode>, chan: seq<nat>, q: nat, ch: nat, i: nat)
    requires WakeDone(pc, st, chan) && q < |pc| && pc[q] == Wake(ch, i) && i < |pc|
    requires !pc[i].Sleep2? && (i == q ==> !st[i].Sleeping?)
    ensures WakeDone(pc[q := Wake(ch, i + 1)], if i != q && st[i].Sleeping? && chan[i] == ch then st[i := Runnable]
      else st, chan)
  {
  }

  /** Where nobody falls asleep and no wakeup moves on. */
  lemma WakesFewer(pc: seq<Pc>, st: seq<Mode>, chan: seq<nat>, pc': seq<Pc>, st': seq<Mode>, chan': seq<nat>)
    requires WakeDone(pc, st, chan) && |pc'| == |st'| == |chan'| == |pc|
    requires forall q: nat :: q < |pc| && pc'[q].Wake? ==> pc'[q] == pc[q] || pc'[q].i == 0
    requires forall p: nat, ch: nat :: p < |pc| && Asleep(pc'[p], st'[p], chan'[p], ch) ==>
      Asleep(pc[p], st[p], chan[p], ch)
    ensures WakeDone(pc', st', chan')
  {
  }

  /** Where nobody falls asleep and no handler's wakeup moves on. */
  lemma IrqFewer(irq: seq<Handler>, pc: seq<Pc>, st: seq<Mode>, chan: seq<nat>, irq': seq<Handler>, pc': seq<Pc>,
                 st': seq<Mode>, chan': seq<nat>)
    requires IrqDone(irq, pc, st, chan) && |pc'| == |st'| == |chan'| == |pc| && |irq'| == |irq|
    requires forall c: nat :: c < |irq| && irq'[c].Waking? ==> irq'[c] == irq[c] || irq'[c].i == 0
    requires forall p: nat, ch: nat :: p < |pc| && Asleep(pc'[p], st'[p], chan'[p], ch) ==>
      Asleep(pc[p], st[p], chan[p], ch)
    ensures IrqDone(irq', pc', st', chan')
  {
  }

  /** A process that gives up the lock of its channel meets no wakeup on it: that would hold the lock. */
  lemma WakesReleased(guard: nat -> nat, irq: seq<Handler>, pc: seq<Pc>, st: seq<Mode>, chan: seq<nat>,
                      lk: map<nat, Owner>, p: nat)
    requires WakeDone(pc, st, chan) && IrqDone(irq, pc, st, chan) && LkHeld(guard, pc, irq, lk)
    requires p < |pc| && pc[p].Sleep1?
    ensures WakeDone(pc[p := Sleep2(pc[p].ch)], st, chan) && IrqDone(irq, pc[p := Sleep2(pc[p].ch)], st, chan)
  {
  }

  /** The process a handler's wakeup looks at is not asleep on its channel afterwards. */
  lemma IrqDoneNext(irq: seq<Handler>, pc: seq<Pc>, st: seq<Mode>, chan: seq<nat>, c: nat, ch: nat, i: nat, mine: bool)
    requires IrqDone(irq, pc, st, chan) && c < |irq| && irq[c] == Waking(ch, i) && i < |pc|
    requires !pc[i].Sleep2? && (mine ==> !st[i].Sleeping?)
    ensures IrqDone(irq[c := Waking(ch, i + 1)], pc,
                    if !mine && st[i].Sleeping? && chan[i] == ch then st[i := Runnable] else st, chan)
  {
  }

  /** What a step does to sleepers: nobody falls asleep, except for one who releases the lock of the channel. */
  lemma SleepersStep(s: State, home: seq<int>, l: Label)
    requires Facts(s, home, l) && Enabled(s, l) && !l.SleepRelease?
    requires !OfHandler(l)
    ensures var t := Moved(s, l);
      && |t.pc| == |t.st| == |t.chan| == |s.pc|
      && forall p: nat, ch: nat :: p < |s.pc| && Asleep(t.pc[p], t.st[p], t.chan[p], ch) ==>
           Asleep(s.pc[p], s.st[p], s.chan[p], ch)
  {
  }

  lemma WakesStep(s: State, home: seq<int>, l: Label)
    requires WakeDone(s.pc, s.st, s.chan) && IrqDone(s.irq, s.pc, s.st, s.chan)
    requires LkHeld(s.guard, s.pc, s.irq, s.lk) && Facts(s, home, l) && Enabled(s, l)
    requires l.WakeStep? ==> var q := s.cpus[l.c].p; !s.pc[s.pc[q].i].Sleep2? && (s.pc[q].i == q ==> !s.st[q].Sleeping?)
    requires !OfHandler(l)
    ensures WakeDone(Moved(s, l).pc, Moved(s, l).st, Moved(s, l).chan)
  {
    if l.WakeStep? {
      var q := s.cpus[l.c].p;
      WakeDoneNext(s.pc, s.st, s.chan, q, s.pc[q].ch, s.pc[q].i);
    } else if l.SleepRelease? {
      WakesReleased(s.guard, s.irq, s.pc, s.st, s.chan, s.lk, s.cpus[l.c].p);
    } else {
      SleepersStep(s, home, l);
      WakesFewer(s.pc, s.st, s.chan, Moved(s, l).pc, Moved(s, l).st, Moved(s, l).chan);
    }
  }

  lemma IrqWakesStep(s: State, home: seq<int>, l: Label)
    requires WakeDone(s.pc, s.st, s.chan) && IrqDone(s.irq, s.pc, s.st, s.chan)
    requires LkHeld(s.guard, s.pc, s.irq, s.lk) && Facts(s, home, l) && Enabled(s, l)
    requires !OfHandler(l)
    ensures IrqDone(s.irq, Moved(s, l).pc, Moved(s, l).st, Moved(s, l).chan)
  {
    if l.SleepRelease? {
      WakesReleased(s.guard, s.irq, s.pc, s.st, s.chan, s.lk, s.cpus[l.c].p);
    } else {
      SleepersStep(s, home, l);
      IrqFewer(s.irq, s.pc, s.st, s.chan, s.irq, Moved(s, l).pc, Moved(s, l).st, Moved(s, l).chan);
    }
  }

  // ---------------------------------------------------------------- one step of a handler

  /** The interrupted process is running. */
  lemma InterruptedRuns(s: State, home: seq<int>, c: nat)
    requires Inv(s, home) && Enabled(s, IrqStep(c)) && Mine(s.cpus[c], s.irq[c].i)
    ensures s.st[s.irq[c].i].Running?
  {
    assert Interruptible(s.cpus[c], s.pc);
    assert Uses(s.cpus[c]);
  }

  /** The process that a wakeup looks at is not between the locks of sleep. */
  lemma WakeSees(s: State, home: seq<int>, c: nat)
    requires Inv(s, home) && Enabled(s, WakeStep(c))
    ensures var q := s.cpus[c].p; !s.pc[s.pc[q].i].Sleep2? && (s.pc[q].i == q ==> !s.st[q].Sleeping?)
  {
    var q := s.cpus[c].p;
    if s.pc[q].i != q {
      UnlockedIsOut(s, home, s.pc[q].i);
    }
  }

  lemma MovedPlaces(s: State, home: seq<int>, l: Label)
    requires Inv(s, home) && Enabled(s, l) && Facts(s, home, l) && !OfHandler(l)
    ensures var t, home' := Moved(s, l), Home(s, home, l);
      && Homes(t.cpus, home') && Locks(t.cpus, t.pc, t.lock) && LocksOnly(t.cpus, t.pc, t.lock)
      && Modes(t.pc, t.st, home') && Stations(t.cpus, t.pc)
  {
    HomesStep(s, home, l);
    LocksStep(s, home, l);
    ModesStep(s, home, l);
    StationsStep(s, home, l);
  }

  lemma MovedSleepers(s: State, home: seq<int>, l: Label)
    requires Inv(s, home) && Enabled(s, l) && Facts(s, home, l) && !OfHandler(l)
    ensures var t := Moved(s, l);
      && LkHeld(t.guard, t.pc, t.irq, t.lk) && Handlers(t.cpus, t.irq, t.pc)
      && WakeDone(t.pc, t.st, t.chan) && IrqDone(t.irq, t.pc, t.st, t.chan)
  {
    if l.WakeStep? {
      WakeSees(s, home, l.c);
    }
    LkStep(s, home, l);
    HandlersStep(s, home, l);
    WakesStep(s, home, l);
    IrqWakesStep(s, home, l);
  }

  /** A handler's wakeup makes runnable a process that is off its stack. */
  lemma HandledModes(s: State, home: seq<int>, l: Label)
    requires Modes(s.pc, s.st, home) && Facts(s, home, l) && Enabled(s, l) && OfHandler(l)
    ensures Modes(s.pc, Handled(s, l).st, home)
  {
  }

  lemma HandledWakes(s: State, home: seq<int>, l: Label)
    requires WakeDone(s.pc, s.st, s.chan) && IrqDone(s.irq, s.pc, s.st, s.chan)
    requires Facts(s, home, l) && Enabled(s, l) && OfHandler(l)
    requires l.IrqStep? && Mine(s.cpus[l.c], s.irq[l.c].i) ==> !s.st[s.irq[l.c].i].Sleeping?
    ensures WakeDone(s.pc, Handled(s, l).st, s.chan) && IrqDone(Handled(s, l).irq, s.pc, Handled(s, l).st, s.chan)
  {
    var t := Handled(s, l);
    WakesFewer(s.pc, s.st, s.chan, s.pc, t.st, s.chan);
    if l.IrqStep? {
      var c := l.c;
      IrqDoneNext(s.irq, s.pc, s.st, s.chan, c, s.irq[c].ch, s.irq[c].i, Mine(s.cpus[c], s.irq[c].i));
    } else {
      IrqFewer(s.irq, s.pc, s.st, s.chan, t.irq, s.pc, t.st, s.chan);
    }
  }

  lemma HandledInv(s: State, home: seq<int>, l: Label)
    requires Inv(s, home) && Enabled(s, l) && Facts(s, home, l) && OfHandler(l)
    ensures Inv(Handled(s, l), home)
  {
    if l.IrqStep? && Mine(s.cpus[l.c], s.irq[l.c].i) {
      InterruptedRuns(s, home, l.c);
    }
    HandledModes(s, home, l);
    LkHandled(s, l);
    HandlersHandled(s, l);
    HandledWakes(s, home, l);
  }

  lemma StepInv(s: State, home: seq<int>, l: Label)
    requires Inv(s, home) && Enabled(s, l)
    ensures Inv(Next(s, l), Home(s, home, l))
  {
    StepFacts(s, home, l);
    if OfHandler(l) {
      HandledInv(s, home, l);
    } else {
      MovedPlaces(s, home, l);
      MovedSleepers(s, home, l);
    }
  }

  // ---------------------------------------------------------------- runs

  function Step(s: State, l: Label): State {
    if Enabled(s, l) then Next(s, l) else s
  }

  function Run(s: State, ls: seq<Label>): State {
    if ls == [] then s else Step(Run(s, ls[..|ls| - 1]), ls[|ls| - 1])
  }

  ghost function HomeAfter(s: State, home: seq<int>, ls: seq<Label>): seq<int> {
    if ls == [] then home
    else
      var before, at := Run(s, ls[..|ls| - 1]), HomeAfter(s, home, ls[..|ls| - 1]);
      if Enabled(before, ls[|ls| - 1]) then Home(before, at, ls[|ls| - 1]) else at
  }

  lemma {:induction false} RunInv(s: State, home: seq<int>, ls: seq<Label>)
    requires Inv(s, home)
    ensures Inv(Run(s, ls), HomeAfter(s, home, ls))
    decreases |ls|
  {
    if ls != [] {
      RunInv(s, home, ls[..|ls| - 1]);
      var before, at := Run(s, ls[..|ls| - 1]), HomeAfter(s, home, ls[..|ls| - 1]);
      if Enabled(before, ls[|ls| - 1]) {
        StepInv(before, at, ls[|ls| - 1]);
      }
    }
  }

  /** All CPUs idle, one process ready to run and the other slots free. */
  ghost predicate Booted(s: State) {
    && |s.pc| == |s.st| == |s.chan| == |s.lock| && s.lk == map[]
    && |s.irq| == |s.cpus| && (forall c :: 0 <= c < |s.cpus| ==> s.cpus[c].Idle? && s.irq[c].Quiet?)
    && (forall p :: 0 <= p < |s.pc| ==>
          s.lock[p] == -1 && s.pc[p] == Out(Plain) && (s.st[p].Unused? || s.st[p].Runnable?))
  }

  function Nowhere(n: nat): (h: seq<int>)
    ensures |h| == n && forall i :: 0 <= i < n ==> h[i] == -1
  {
    if n == 0 then [] else Nowhere(n - 1) + [-1]
  }

  lemma BootInv(s: State)
    requires Booted(s)
    ensures Inv(s, Nowhere(|s.pc|))
  {
  }

  /** In every run a process is on at most one CPU: two CPUs never use the same kernel stack. */
  lemma OneCpu(s: State, ls: seq<Label>, c: nat, d: nat)
    requires Booted(s)
    ensures var r := Run(s, ls);
            c < |r.cpus| && d < |r.cpus| && Uses(r.cpus[c]) && Uses(r.cpus[d]) && r.cpus[c].p == r.cpus[d].p ==> c == d
  {
    BootInv(s);
    RunInv(s, Nowhere(|s.pc|), ls);
  }

  /** A slot is reaped, given to a new process or chosen only once no CPU is on its kernel stack. */
  lemma StackLeft(s: State, ls: seq<Label>, l: Label, c: nat)
    requires Booted(s) && Enabled(Run(s, ls), l) && c < |Run(s, ls).cpus| && (l.Reap? || l.Spawn? || l.Choose?)
    ensures var r := Run(s, ls); Uses(r.cpus[c]) ==> r.cpus[c].p != if l.Choose? then l.p else l.i
  {
    BootInv(s);
    RunInv(s, Nowhere(|s.pc|), ls);
    UnlockedIsOut(Run(s, ls), HomeAfter(s, Nowhere(|s.pc|), ls), if l.Choose? then l.p else l.i);
  }

  /**
   * A process that calls sched holds its own lock, no other process's and no condition lock, and is not RUNNING;
   * an exited one never resumes.  Interrupts are off because a lock is held.
   */
  lemma SchedNeverPanics(s: State, ls: seq<Label>, c: nat)
    requires Booted(s)
    requires c < |Run(s, ls).cpus| && Run(s, ls).cpus[c].On?
    ensures var r, p := Run(s, ls), Run(s, ls).cpus[c].p;
            && p < |r.pc| == |r.lock| == |r.st| && r.pc[p] != Resumed(Dead)
            && (r.pc[p].Parking? ==>
                  && !r.st[p].Running?
                  && (forall i :: 0 <= i < |r.lock| ==> (r.lock[i] == c <==> i == p))
                  && (forall k :: k in r.lk ==> r.lk[k] != Proc(p) && r.lk[k] != Irq(c)))
  {
    BootInv(s);
    RunInv(s, Nowhere(|s.pc|), ls);
    var r := Run(s, ls);
    OnStack(r, HomeAfter(s, Nowhere(|s.pc|), ls), c);
    if r.pc[r.cpus[c].p].Parking? {
      ParkingLock(r.cpus, r.pc, r.lock, c);
      ParkingLks(r, c);
    }
  }

  lemma OnStack(s: State, home: seq<int>, c: nat)
    requires Homes(s.cpus, home) && Modes(s.pc, s.st, home) && Locks(s.cpus, s.pc, s.lock)
    requires c < |s.cpus| && s.cpus[c].On?
    ensures s.cpus[c].p < |s.pc| == |s.lock| == |s.st| && s.pc[s.cpus[c].p] != Resumed(Dead)
    ensures s.pc[s.cpus[c].p].Parking? ==> !s.st[s.cpus[c].p].Running?
  {
    assert Uses(s.cpus[c]);
  }

  lemma ParkingLock(cpus: seq<Where>, pc: seq<Pc>, lock: seq<int>, c: nat)
    requires Locks(cpus, pc, lock) && LocksOnly(cpus, pc, lock)
    requires c < |cpus| && cpus[c].On? && cpus[c].p < |pc| && pc[cpus[c].p].Parking?
    ensures forall i :: 0 <= i < |lock| ==> (lock[i] == c <==> i == cpus[c].p)
  {
  }

  lemma ParkingLks(s: State, c: nat)
    requires LkHeld(s.guard, s.pc, s.irq, s.lk) && Handlers(s.cpus, s.irq, s.pc)
    requires c < |s.cpus| && s.cpus[c].On? && s.cpus[c].p < |s.pc| && s.pc[s.cpus[c].p].Parking?
    ensures forall k :: k in s.lk ==> s.lk[k] != Proc(s.cpus[c].p) && s.lk[k] != Irq(c)
  {
    forall k | k in s.lk ensures s.lk[k] != Proc(s.cpus[c].p) && s.lk[k] != Irq(c) {
      assert Owns(s.guard, s.pc, s.irq, s.lk[k], k);
    }
  }

  lemma WokenAll(s: State, c: nat, p: nat)
    requires WakeDone(s.pc, s.st, s.chan) && Enabled(s, WakeEnd(c)) && p < |s.pc|
    ensures !Asleep(s.pc[p], s.st[p], s.chan[p], s.pc[s.cpus[c].p].ch)
  {
  }

  lemma IrqWokenAll(s: State, c: nat, p: nat)
    requires IrqDone(s.irq, s.pc, s.st, s.chan) && Enabled(s, IrqWoken(c)) && p < |s.pc|
    ensures !Asleep(s.pc[p], s.st[p], s.chan[p], s.irq[c].ch)
  {
  }

  /**
   * When a wakeup under the condition's lock is done, by a process or by an interrupt handler, nobody who went to sleep
   * on that channel before is still asleep.
   */
  lemma NoLostWakeup(s: State, ls: seq<Label>, c: nat, p: nat)
    requires Booted(s) && p < |Run(s, ls).pc|
    ensures var r := Run(s, ls);
      && (Enabled(r, WakeEnd(c)) ==> !Asleep(r.pc[p], r.st[p], r.chan[p], r.pc[r.cpus[c].p].ch))
      && (Enabled(r, IrqWoken(c)) ==> !Asleep(r.pc[p], r.st[p], r.chan[p], r.irq[c].ch))
  {
    BootInv(s);
    RunInv(s, Nowhere(|s.pc|), ls);
    var r := Run(s, ls);
    if Enabled(r, WakeEnd(c)) {
      WokenAll(r, c, p);
    }
    if Enabled(r, IrqWoken(c)) {
      IrqWokenAll(r, c, p);
    }
  }
}
