/** Every step keeps the exit and wait invariant; what follows for every run. */
module ExitWaitRuns {
  import opened ExitWait

  lemma ForkAllocInv(s: State, h: History, p: nat, np: nat)
    requires Inv(s, h) && Enabled(s, ForkAlloc(p, np))
    ensures Inv(Next(s, ForkAlloc(p, np)), Record(s, h, ForkAlloc(p, np)))
  {
    var s', h' := Next(s, ForkAlloc(p, np)), Record(s, h, ForkAlloc(p, np));
    assert Modes(s'.st, s'.pc, s'.wl);
    assert Parents(s'.st, s'.parent);
    assert Forks(s'.st, s'.pc, s'.parent);
    assert Scanned(s'.st, s'.pc, s'.parent);
    assert Recorded(s'.st, s'.pid, s'.xstate, s'.nextpid, h');
  }

  lemma ForkFailInv(s: State, h: History, p: nat)
    requires Inv(s, h) && Enabled(s, ForkFail(p))
    ensures Inv(Next(s, ForkFail(p)), Record(s, h, ForkFail(p)))
  {
    var s', h' := Next(s, ForkFail(p)), Record(s, h, ForkFail(p));
    assert Modes(s'.st, s'.pc, s'.wl);
    assert Parents(s'.st, s'.parent);
    assert Forks(s'.st, s'.pc, s'.parent);
    assert Scanned(s'.st, s'.pc, s'.parent);
    assert Recorded(s'.st, s'.pid, s'.xstate, s'.nextpid, h');
  }

  lemma ForkLinkInv(s: State, h: History, p: nat)
    requires Inv(s, h) && Enabled(s, ForkLink(p))
    ensures Inv(Next(s, ForkLink(p)), Record(s, h, ForkLink(p)))
  {
    var s', h' := Next(s, ForkLink(p)), Record(s, h, ForkLink(p));
    assert Modes(s'.st, s'.pc, s'.wl);
    assert Parents(s'.st, s'.parent);
    assert Forks(s'.st, s'.pc, s'.parent);
    assert Scanned(s'.st, s'.pc, s'.parent);
    assert Recorded(s'.st, s'.pid, s'.xstate, s'.nextpid, h');
  }

  lemma ForkStartScanned(s: State, p: nat)
    requires Sized(s) && Enabled(s, ForkStart(p)) && Modes(s.st, s.pc, s.wl) && Scanned(s.st, s.pc, s.parent)
    requires Parents(s.st, s.parent) && Forks(s.st, s.pc, s.parent)
    ensures var s' := Next(s, ForkStart(p)); Scanned(s'.st, s'.pc, s'.parent)
  {
  }

  lemma ForkStartInv(s: State, h: History, p: nat)
    requires Inv(s, h) && Enabled(s, ForkStart(p))
    ensures Inv(Next(s, ForkStart(p)), Record(s, h, ForkStart(p)))
  {
    var s', h' := Next(s, ForkStart(p)), Record(s, h, ForkStart(p));
    assert Modes(s'.st, s'.pc, s'.wl);
    assert Parents(s'.st, s'.parent);
    assert Forks(s'.st, s'.pc, s'.parent);
    ForkStartScanned(s, p);
    assert Recorded(s'.st, s'.pid, s'.xstate, s'.nextpid, h');
  }

  lemma ExitLockInv(s: State, h: History, p: nat, status: int)
    requires Inv(s, h) && Enabled(s, ExitLock(p, status))
    ensures Inv(Next(s, ExitLock(p, status)), Record(s, h, ExitLock(p, status)))
  {
    var s', h' := Next(s, ExitLock(p, status)), Record(s, h, ExitLock(p, status));
    assert Modes(s'.st, s'.pc, s'.wl);
    assert Parents(s'.st, s'.parent);
    assert Forks(s'.st, s'.pc, s'.parent);
    assert Scanned(s'.st, s'.pc, s'.parent);
    assert Recorded(s'.st, s'.pid, s'.xstate, s'.nextpid, h');
  }

  lemma ExitTurnScanned(s: State, p: nat)
    requires Sized(s) && Enabled(s, ExitTurn(p)) && Modes(s.st, s.pc, s.wl) && Scanned(s.st, s.pc, s.parent)
    requires Parents(s.st, s.parent) && Forks(s.st, s.pc, s.parent)
    ensures var s' := Next(s, ExitTurn(p)); Scanned(s'.st, s'.pc, s'.parent)
  {
  }

  lemma ExitTurnInv(s: State, h: History, p: nat)
    requires Inv(s, h) && Enabled(s, ExitTurn(p))
    ensures Inv(Next(s, ExitTurn(p)), Record(s, h, ExitTurn(p)))
  {
    var s', h' := Next(s, ExitTurn(p)), Record(s, h, ExitTurn(p));
    assert Modes(s'.st, s'.pc, s'.wl);
    assert Parents(s'.st, s'.parent);
    assert Forks(s'.st, s'.pc, s'.parent);
    ExitTurnScanned(s, p);
    assert Recorded(s'.st, s'.pid, s'.xstate, s'.nextpid, h');
  }

  lemma ExitWakeInv(s: State, h: History, p: nat)
    requires Inv(s, h) && Enabled(s, ExitWake(p))
    ensures Inv(Next(s, ExitWake(p)), Record(s, h, ExitWake(p)))
  {
    var s', h' := Next(s, ExitWake(p)), Record(s, h, ExitWake(p));
    assert Modes(s'.st, s'.pc, s'.wl);
    assert Parents(s'.st, s'.parent);
    assert Forks(s'.st, s'.pc, s'.parent);
    assert Scanned(s'.st, s'.pc, s'.parent);
    assert Recorded(s'.st, s'.pid, s'.xstate, s'.nextpid, h');
  }

  lemma ExitMarkInv(s: State, h: History, p: nat)
    requires Inv(s, h) && Enabled(s, ExitMark(p))
    ensures Inv(Next(s, ExitMark(p)), Record(s, h, ExitMark(p)))
  {
    var s', h' := Next(s, ExitMark(p)), Record(s, h, ExitMark(p));
    assert Modes(s'.st, s'.pc, s'.wl);
    assert Parents(s'.st, s'.parent);
    assert Forks(s'.st, s'.pc, s'.parent);
    assert Scanned(s'.st, s'.pc, s'.parent);
    assert Recorded(s'.st, s'.pid, s'.xstate, s'.nextpid, h');
  }

  lemma SwitchOutInv(s: State, h: History, p: nat)
    requires Inv(s, h) && Enabled(s, SwitchOut(p))
    ensures Inv(Next(s, SwitchOut(p)), Record(s, h, SwitchOut(p)))
  {
    var s', h' := Next(s, SwitchOut(p)), Record(s, h, SwitchOut(p));
    assert Modes(s'.st, s'.pc, s'.wl);
    assert Parents(s'.st, s'.parent);
    assert Forks(s'.st, s'.pc, s'.parent);
    assert Scanned(s'.st, s'.pc, s'.parent);
    assert Recorded(s'.st, s'.pid, s'.xstate, s'.nextpid, h');
  }

  lemma WaitLockInv(s: State, h: History, p: nat)
    requires Inv(s, h) && Enabled(s, WaitLock(p))
    ensures Inv(Next(s, WaitLock(p)), Record(s, h, WaitLock(p)))
  {
    var s', h' := Next(s, WaitLock(p)), Record(s, h, WaitLock(p));
    assert Modes(s'.st, s'.pc, s'.wl);
    assert Parents(s'.st, s'.parent);
    assert Forks(s'.st, s'.pc, s'.parent);
    assert Scanned(s'.st, s'.pc, s'.parent);
    assert Recorded(s'.st, s'.pid, s'.xstate, s'.nextpid, h');
  }

  lemma ReapInv(s: State, h: History, p: nat)
    requires Inv(s, h) && Reaps(s, WaitTurn(p, false))
    ensures Inv(Next(s, WaitTurn(p, false)), Record(s, h, WaitTurn(p, false)))
  {
    var i := s.pc[p].i;
    var s', h' := Next(s, WaitTurn(p, false)), Record(s, h, WaitTurn(p, false));
    assert s.pc[i].Out?;
    assert Modes(s'.st, s'.pc, s'.wl);
    assert Parents(s'.st, s'.parent);
    assert Forks(s'.st, s'.pc, s'.parent);
    assert Scanned(s'.st, s'.pc, s'.parent);
    assert Recorded(s'.st, s'.pid, s'.xstate, s'.nextpid, h');
  }

  lemma WaitTurnInv(s: State, h: History, p: nat, fault: bool)
    requires Inv(s, h) && Enabled(s, WaitTurn(p, fault))
    ensures Inv(Next(s, WaitTurn(p, fault)), Record(s, h, WaitTurn(p, fault)))
  {
    if Reaps(s, WaitTurn(p, fault)) {
      ReapInv(s, h, p);
    } else {
      var i := s.pc[p].i;
      if s.parent[i] == p && s.st[i].Zombie? {
        Relabel(s, p, Normal, NONE);
      } else {
        Relabel(s, p, WaitScan(i + 1, s.pc[p].kids || s.parent[i] == p), s.wl);
      }
    }
  }

  /** A scanning process goes on to the next slot, or leaves the scan. */
  lemma Relabel(s: State, p: nat, pc: Pc, wl: int)
    requires Sized(s) && p < |s.pc| && s.pc[p].WaitScan? && s.pc[p].i < |s.pc|
    requires Modes(s.st, s.pc, s.wl) && Forks(s.st, s.pc, s.parent) && Scanned(s.st, s.pc, s.parent)
    requires (pc == Normal && wl == NONE) ||
      (wl == s.wl && pc == WaitScan(s.pc[p].i + 1, s.pc[p].kids || s.parent[s.pc[p].i] == p) &&
       !(s.parent[s.pc[p].i] == p && s.st[s.pc[p].i].Zombie?))
    ensures Modes(s.st, s.pc[p := pc], wl) && Forks(s.st, s.pc[p := pc], s.parent)
    ensures Scanned(s.st, s.pc[p := pc], s.parent)
  {
  }

  lemma WaitEndScanned(s: State, p: nat)
    requires Sized(s) && Enabled(s, WaitEnd(p)) && Modes(s.st, s.pc, s.wl) && Scanned(s.st, s.pc, s.parent)
    requires Parents(s.st, s.parent) && Forks(s.st, s.pc, s.parent)
    ensures var s' := Next(s, WaitEnd(p)); Scanned(s'.st, s'.pc, s'.parent)
  {
  }

  lemma WaitEndInv(s: State, h: History, p: nat)
    requires Inv(s, h) && Enabled(s, WaitEnd(p))
    ensures Inv(Next(s, WaitEnd(p)), Record(s, h, WaitEnd(p)))
  {
    var s', h' := Next(s, WaitEnd(p)), Record(s, h, WaitEnd(p));
    assert Modes(s'.st, s'.pc, s'.wl);
    assert Parents(s'.st, s'.parent);
    assert Forks(s'.st, s'.pc, s'.parent);
    WaitEndScanned(s, p);
    assert Recorded(s'.st, s'.pid, s'.xstate, s'.nextpid, h');
  }

  lemma KillInv(s: State, h: History, p: nat, i: nat)
    requires Inv(s, h) && Enabled(s, Kill(p, i))
    ensures Inv(Next(s, Kill(p, i)), Record(s, h, Kill(p, i)))
  {
    var s', h' := Next(s, Kill(p, i)), Record(s, h, Kill(p, i));
    assert Modes(s'.st, s'.pc, s'.wl);
    assert Parents(s'.st, s'.parent);
    assert Forks(s'.st, s'.pc, s'.parent);
    assert Scanned(s'.st, s'.pc, s'.parent);
    assert Recorded(s'.st, s'.pid, s'.xstate, s'.nextpid, h');
  }

  lemma StepInv(s: State, h: History, l: Label)
    requires Inv(s, h) && Enabled(s, l)
    ensures Inv(Next(s, l), Record(s, h, l))
  {
    match l
    case ForkAlloc(p, np) => ForkAllocInv(s, h, p, np);
    case ForkFail(p) => ForkFailInv(s, h, p);
    case ForkLink(p) => ForkLinkInv(s, h, p);
    case ForkStart(p) => ForkStartInv(s, h, p);
    case ExitLock(p, status) => ExitLockInv(s, h, p, status);
    case ExitTurn(p) => ExitTurnInv(s, h, p);
    case ExitWake(p) => ExitWakeInv(s, h, p);
    case ExitMark(p) => ExitMarkInv(s, h, p);
    case SwitchOut(p) => SwitchOutInv(s, h, p);
    case WaitLock(p) => WaitLockInv(s, h, p);
    case WaitTurn(p, fault) => WaitTurnInv(s, h, p, fault);
    case WaitEnd(p) => WaitEndInv(s, h, p);
    case Kill(p, i) => KillInv(s, h, p, i);
  }

  // ---------------------------------------------------------------- runs

  function Run(s: State, ls: seq<Label>): State {
    if ls == [] then s
    else
      var before := Run(s, ls[..|ls| - 1]);
      if Enabled(before, ls[|ls| - 1]) then Next(before, ls[|ls| - 1]) else before
  }

  function Story(s: State, ls: seq<Label>): History {
    if ls == [] then History(map[], map[])
    else
      var before, h := Run(s, ls[..|ls| - 1]), Story(s, ls[..|ls| - 1]);
      if Enabled(before, ls[|ls| - 1]) then Record(before, h, ls[|ls| - 1]) else h
  }

  /** After userinit: the init process alone. */
  ghost predicate Booted(s: State) {
    && Sized(s) && INIT < |s.st| && s.wl == NONE && s.nextpid == 2
    && s.st[INIT].Live? && s.pc[INIT].Normal? && s.pid[INIT] == 1
    && (forall i :: 0 <= i < |s.st| ==> s.parent[i] == NONE)
    && (forall i :: 0 <= i < |s.st| && i != INIT ==> s.st[i].Unused? && s.pc[i].Out? && s.pid[i] == 0)
    && (forall i :: 0 <= i < |s.st| ==> !s.killed[i])
  }

  lemma {:induction false} RunInv(s: State, ls: seq<Label>)
    requires Booted(s)
    ensures Inv(Run(s, ls), Story(s, ls))
    decreases |ls|
  {
    if ls != [] {
      RunInv(s, ls[..|ls| - 1]);
      var before, h := Run(s, ls[..|ls| - 1]), Story(s, ls[..|ls| - 1]);
      if Enabled(before, ls[|ls| - 1]) {
        StepInv(before, h, ls[|ls| - 1]);
      }
    }
  }

  /**
   * Every reap, in every run, is of a zombie off its kernel stack, not reaped before, with the status it exited with.
   */
  lemma ReapedOnce(s: State, ls: seq<Label>, l: Label)
    requires Booted(s) && Reaps(Run(s, ls), l)
    ensures var r, h, i := Run(s, ls), Story(s, ls), Run(s, ls).pc[l.p].i;
            && r.pc[i].Out? && r.pid[i] !in h.reaps
            && r.pid[i] in h.exits && h.exits[r.pid[i]] == r.xstate[i]
            && Record(r, h, l).reaps == h.reaps[r.pid[i] := h.exits[r.pid[i]]]
  {
    RunInv(s, ls);
  }

  /**
   * In every run parent pointers name live processes, and no process is asleep in wait while a child of it is a zombie.
   */
  lemma ParentsLive(s: State, ls: seq<Label>, i: nat)
    requires Booted(s) && i < |Run(s, ls).st| && Sized(Run(s, ls)) && Run(s, ls).parent[i] != NONE
    ensures var r := Run(s, ls);
            && 0 <= r.parent[i] < |r.st| && (r.st[r.parent[i]].Live? || r.st[r.parent[i]].Asleep?)
            && (r.st[i].Zombie? ==> !r.st[r.parent[i]].Asleep?)
  {
    RunInv(s, ls);
  }

  // ---------------------------------------------------------------- kill

  /** Nobody's kill is pending for a process that is still to be made. */
  ghost predicate FreshSlots(s: State) {
    Sized(s) && forall i: nat :: i < |s.st| && s.st[i].Unused? ==> !s.killed[i]
  }

  /** kill(0), which finds a free slot. */
  predicate KillsZero(s: State, l: Label) {
    Enabled(s, l) && l.Kill? && s.pid[l.i] == 0
  }

  lemma FreshStep(s: State, h: History, l: Label)
    requires Recorded(s.st, s.pid, s.xstate, s.nextpid, h) && FreshSlots(s) && Enabled(s, l)
    ensures FreshSlots(Next(s, l)) <==> !KillsZero(s, l)
  {
    if KillsZero(s, l) {
      assert Listed(s.st[l.i], s.pid[l.i], s.xstate[l.i], s.nextpid, h);
      assert Next(s, l).st[l.i].Unused? && Next(s, l).killed[l.i];
    } else if l.Kill? {
      assert Listed(s.st[l.i], s.pid[l.i], s.xstate[l.i], s.nextpid, h);
    }
  }

  ghost predicate AllFresh(s: State, ls: seq<Label>) {
    FreshSlots(Run(s, ls)) && (ls != [] ==> AllFresh(s, ls[..|ls| - 1]))
  }

  predicate NeverZero(s: State, ls: seq<Label>) {
    ls == [] || (NeverZero(s, ls[..|ls| - 1]) && !KillsZero(Run(s, ls[..|ls| - 1]), ls[|ls| - 1]))
  }

  /** A kill is never inherited by a later process in the same slot, just when nobody calls kill with 0. */
  lemma {:induction false} KillExact(s: State, ls: seq<Label>)
    requires Booted(s)
    ensures AllFresh(s, ls) <==> NeverZero(s, ls)
    decreases |ls|
  {
    if ls != [] {
      var t, l := ls[..|ls| - 1], ls[|ls| - 1];
      KillExact(s, t);
      if AllFresh(s, t) && Enabled(Run(s, t), l) {
        RunInv(s, t);
        FreshStep(Run(s, t), Story(s, t), l);
      }
    }
  }

  /** After kill(0) the next child made in the first free slot is killed from its start. */
  lemma KillZeroMarksChild(s: State)
    requires Booted(s) && |s.st| > 1
    ensures var r := Run(s, [Kill(INIT, 1), ForkAlloc(INIT, 1), ForkLink(INIT), ForkStart(INIT)]);
      Sized(r) && |r.st| > 1 && r.st[1].Live? && r.parent[1] == INIT && r.killed[1]
  {
    var a, b, c, d := Kill(INIT, 1), ForkAlloc(INIT, 1), ForkLink(INIT), ForkStart(INIT);
    assert Run(s, []) == s;
    assert [a][..0] == [] && Enabled(s, a);
    assert [a, b][..1] == [a] && Enabled(Run(s, [a]), b);
    assert [a, b, c][..2] == [a, b] && Enabled(Run(s, [a, b]), c);
    assert [a, b, c, d][..3] == [a, b, c] && Enabled(Run(s, [a, b, c]), d);
  }

  /** wait gives up for lack of children only when there is none, and goes to sleep only when none has exited. */
  lemma WaitSleepsRight(s: State, ls: seq<Label>, p: nat, j: nat)
    requires Booted(s) && Enabled(Run(s, ls), WaitEnd(p)) && j < |Run(s, ls).st|
    ensures var r := Run(s, ls);
            && (!r.pc[p].kids ==> r.parent[j] != p)
            && (r.parent[j] == p ==> !r.st[j].Zombie?)
  {
    RunInv(s, ls);
  }
}
