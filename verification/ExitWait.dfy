/** exit, wait, reparent and fork's linking in kernel/proc.c, interleaved at the steps taken under wait_lock. */
module ExitWait {
  const INIT := 0
  const NONE := -1

  /** Live covers RUNNABLE and RUNNING; Asleep is asleep in wait. */
  datatype Mode = Unused | Used | Live | Asleep | Zombie

  datatype Pc =
    | Normal
    | Forked(np: nat)                       // has a new slot, not yet linked to it
    | Linked(np: nat)                       // np->parent is set
    | ExitScan(i: nat, status: int)         // in reparent, at slot i; holds wait_lock
    | ExitWoke(status: int)                 // has woken its parent; holds wait_lock
    | Leaving                               // ZOMBIE, still on its kernel stack with p->lock held
    | Out                                   // off its stack, or never started
    | WaitScan(i: nat, kids: bool)          // in wait, at slot i; holds wait_lock
    | InWait                                // asleep in wait, or woken and about to take wait_lock

  datatype State = State(st: seq<Mode>, pc: seq<Pc>, parent: seq<int>, pid: seq<nat>, xstate: seq<int>,
                         killed: seq<bool>, wl: int, nextpid: nat)

  /** Statuses given to exit and statuses returned by wait, by process id. */
  datatype History = History(exits: map<nat, int>, reaps: map<nat, int>)

  datatype Label =
    | ForkAlloc(p: nat, np: nat)
    | ForkFail(p: nat)
    | ForkLink(p: nat)
    | ForkStart(p: nat)
    | ExitLock(p: nat, status: int)
    | ExitTurn(p: nat)                      // one turn of the loop of reparent
    | ExitWake(p: nat)
    | ExitMark(p: nat)
    | SwitchOut(p: nat)
    | WaitLock(p: nat)
    | WaitTurn(p: nat, fault: bool)         // one turn of the scan; fault: the status cannot be copied out
    | WaitEnd(p: nat)
    | Kill(p: nat, i: nat)                  // kill with the id of slot i, which the search finds first

  predicate Sized(s: State) {
    |s.st| == |s.pc| == |s.parent| == |s.pid| == |s.xstate| == |s.killed|
  }

  predicate Enabled(s: State, l: Label) {
    && Sized(s) && l.p < |s.st| && INIT < |s.st|
    && match l
       case ForkAlloc(p, np) => s.pc[p].Normal? && s.st[p].Live? && np < |s.st| && s.st[np].Unused?
       case ForkFail(p) => s.pc[p].Forked? && s.pc[p].np < |s.st|
       case ForkLink(p) => s.pc[p].Forked? && s.pc[p].np < |s.st| && s.wl == NONE
       case ForkStart(p) => s.pc[p].Linked? && s.pc[p].np < |s.st|
       case ExitLock(p, status) => s.pc[p].Normal? && s.st[p].Live? && p != INIT && s.wl == NONE
       case ExitTurn(p) => s.pc[p].ExitScan? && s.pc[p].i < |s.st|
       case ExitWake(p) => s.pc[p].ExitScan? && s.pc[p].i >= |s.st|
       case ExitMark(p) => s.pc[p].ExitWoke?
       case SwitchOut(p) => s.pc[p].Leaving?
       case WaitLock(p) => (s.pc[p].Normal? || s.pc[p].InWait?) && s.st[p].Live? && s.wl == NONE
       case WaitTurn(p, fault) =>
         && s.pc[p].WaitScan? && s.pc[p].i < |s.st|
         && (s.parent[s.pc[p].i] == p ==> !s.pc[s.pc[p].i].Leaving?)        // acquire(&pp->lock)
       case WaitEnd(p) => s.pc[p].WaitScan? && s.pc[p].i >= |s.st|
       case Kill(p, i) =>
         s.pc[p].Normal? && s.st[p].Live? && i < |s.st| && forall j :: 0 <= j < i ==> s.pid[j] != s.pid[i]
  }

  function Wakened(st: seq<Mode>, q: int): seq<Mode> {
    if 0 <= q < |st| && st[q].Asleep? then st[q := Live] else st
  }

  /** freeproc. */
  function Freed(s: State, i: nat): State
    requires Sized(s) && i < |s.st|
  {
    s.(st := s.st[i := Unused], parent := s.parent[i := NONE], pid := s.pid[i := 0], xstate := s.xstate[i := 0],
       killed := s.killed[i := false])
  }

  function Next(s: State, l: Label): State
    requires Enabled(s, l)
  {
    match l
    case ForkAlloc(p, np) =>
      s.(st := s.st[np := Used], pid := s.pid[np := s.nextpid], nextpid := s.nextpid + 1, pc := s.pc[p := Forked(np)])
    case ForkFail(p) => Freed(s, s.pc[p].np).(pc := s.pc[p := Normal])
    case ForkLink(p) => s.(parent := s.parent[s.pc[p].np := p], pc := s.pc[p := Linked(s.pc[p].np)])
    case ForkStart(p) =>
      var np := s.pc[p].np;
      s.(st := s.st[np := Live], pc := s.pc[p := Normal][np := Normal])
    case ExitLock(p, status) => s.(wl := p, pc := s.pc[p := ExitScan(0, status)])
    case ExitTurn(p) =>
      var i := s.pc[p].i;
      if s.parent[i] == p then
        s.(parent := s.parent[i := INIT], st := Wakened(s.st, INIT), pc := s.pc[p := ExitScan(i + 1, s.pc[p].status)])
      else s.(pc := s.pc[p := ExitScan(i + 1, s.pc[p].status)])
    case ExitWake(p) => s.(st := Wakened(s.st, s.parent[p]), pc := s.pc[p := ExitWoke(s.pc[p].status)])
    case ExitMark(p) =>
      s.(xstate := s.xstate[p := s.pc[p].status], st := s.st[p := Zombie], wl := NONE, pc := s.pc[p := Leaving])
    case SwitchOut(p) => s.(pc := s.pc[p := Out])
    case WaitLock(p) => s.(wl := p, pc := s.pc[p := WaitScan(0, false)])
    case WaitTurn(p, fault) =>
      var i := s.pc[p].i;
      if s.parent[i] != p then s.(pc := s.pc[p := WaitScan(i + 1, s.pc[p].kids)])
      else if !s.st[i].Zombie? then s.(pc := s.pc[p := WaitScan(i + 1, true)])
      else if fault then s.(wl := NONE, pc := s.pc[p := Normal])
      else Freed(s, i).(wl := NONE, pc := s.pc[p := Normal])
    case WaitEnd(p) =>
      if !s.pc[p].kids || s.killed[p] then s.(wl := NONE, pc := s.pc[p := Normal])
      else s.(st := s.st[p := Asleep], wl := NONE, pc := s.pc[p := InWait])
    case Kill(p, i) => s.(killed := s.killed[i := true], st := Wakened(s.st, i))
  }

  /** The slot that a turn of wait reaps. */
  predicate Reaps(s: State, l: Label) {
    Enabled(s, l) && l.WaitTurn? && !l.fault && s.parent[s.pc[l.p].i] == l.p && s.st[s.pc[l.p].i].Zombie?
  }

  function Record(s: State, h: History, l: Label): History
    requires Enabled(s, l)
  {
    if l.ExitMark? then h.(exits := h.exits[s.pid[l.p] := s.pc[l.p].status])
    else if Reaps(s, l) then h.(reaps := h.reaps[s.pid[s.pc[l.p].i] := s.xstate[s.pc[l.p].i]])
    else h
  }

  // ---------------------------------------------------------------- invariant

  predicate Acts(pc: Pc) {
    pc.Normal? || pc.Forked? || pc.Linked? || pc.ExitScan? || pc.ExitWoke? || pc.WaitScan?
  }

  predicate InLock(pc: Pc) {
    pc.ExitScan? || pc.ExitWoke? || pc.WaitScan?
  }

  /** How control and mode of a process go together. */
  predicate Fits(pc: Pc, st: Mode) {
    match st
    case Live => Acts(pc) || pc.InWait?
    case Asleep => pc.InWait?
    case Zombie => pc.Leaving? || pc.Out?
    case Unused => pc.Out?
    case Used => pc.Out?
  }

  ghost predicate Modes(st: seq<Mode>, pc: seq<Pc>, wl: int) {
    && |st| == |pc|
    && (forall p: nat {:trigger pc[p]} :: p < |st| ==> Fits(pc[p], st[p]) && (InLock(pc[p]) ==> wl == p))
    && INIT < |st| && (st[INIT].Live? || st[INIT].Asleep?)
    && !pc[INIT].ExitScan? && !pc[INIT].ExitWoke?
  }

  /**
   * A parent is a live process, never a free slot or a zombie, and it is not asleep in wait when a child of it is a
   * zombie.
   */
  ghost predicate Parents(st: seq<Mode>, parent: seq<int>) {
    && |st| == |parent|
    && (forall i: nat {:trigger parent[i]} :: i < |st| && parent[i] != NONE ==> Cares(st, parent[i], st[i]))
    && (forall i: nat {:trigger parent[i]} :: i < |st| && st[i].Unused? ==> parent[i] == NONE)
  }

  predicate Cares(st: seq<Mode>, p: int, child: Mode) {
    0 <= p < |st| && (st[p].Live? || (st[p].Asleep? && !child.Zombie?))
  }

  predicate Forking(pc: Pc) {
    pc.Forked? || pc.Linked?
  }

  /** A slot being forked belongs to one parent only. */
  ghost predicate Forks(st: seq<Mode>, pc: seq<Pc>, parent: seq<int>) {
    && |st| == |pc| == |parent|
    && (forall p: nat {:trigger pc[p]} :: p < |pc| && Forking(pc[p]) ==> pc[p].np < |st| && st[pc[p].np].Used?)
    && (forall p: nat {:trigger pc[p]} :: p < |pc| && pc[p].Forked? ==> pc[p].np < |st| && parent[pc[p].np] == NONE)
    && (forall p: nat, q: nat :: p < |pc| && q < |pc| && Forking(pc[p]) && Forking(pc[q]) && pc[p].np == pc[q].np ==>
          p == q)
  }

  /** What the scans under wait_lock have established so far. */
  ghost predicate Scanned(st: seq<Mode>, pc: seq<Pc>, parent: seq<int>) {
    && |st| == |pc| == |parent|
    && (forall p: nat, j: nat {:trigger pc[p], parent[j]} :: p < |pc| && j < |pc| && Passed(pc[p], j) ==>
          parent[j] != p)
    && (forall p: nat {:trigger pc[p]} :: p < |pc| && pc[p].ExitWoke? && 0 <= parent[p] < |st| ==>
          !st[parent[p]].Asleep?)
    && (forall p: nat, j: nat {:trigger pc[p], parent[j]} ::
          p < |pc| && j < |pc| && pc[p].WaitScan? && j < pc[p].i && parent[j] == p ==> !st[j].Zombie? && pc[p].kids)
  }

  /** An exiting process that has passed slot j in reparent. */
  predicate Passed(pc: Pc, j: nat) {
    (pc.ExitScan? && j < pc.i) || pc.ExitWoke?
  }

  /** Process ids are fresh and distinct, a zombie holds the status it exited with and was not reaped before. */
  ghost predicate Recorded(st: seq<Mode>, pid: seq<nat>, xstate: seq<int>, nextpid: nat, h: History) {
    && |st| == |pid| == |xstate| && 0 < nextpid
    && (forall i: nat {:trigger pid[i]} :: i < |st| ==> Listed(st[i], pid[i], xstate[i], nextpid, h))
    && (forall i: nat, j: nat {:trigger pid[i], pid[j]} ::
          i < |st| && j < |st| && !st[i].Unused? && !st[j].Unused? && pid[i] == pid[j] ==> i == j)
    && (forall n: nat :: n in h.exits ==> n < nextpid)
    && (forall n: nat :: n in h.reaps ==> n in h.exits && h.reaps[n] == h.exits[n])
  }

  predicate Listed(st: Mode, pid: nat, xstate: int, nextpid: nat, h: History) {
    match st
    case Unused => pid == 0
    case Zombie => 0 < pid < nextpid && pid in h.exits && h.exits[pid] == xstate && pid !in h.reaps
    case _ => 0 < pid < nextpid && pid !in h.exits
  }

  ghost predicate Inv(s: State, h: History) {
    && Sized(s)
    && Modes(s.st, s.pc, s.wl)
    && Parents(s.st, s.parent)
    && Forks(s.st, s.pc, s.parent)
    && Scanned(s.st, s.pc, s.parent)
    && Recorded(s.st, s.pid, s.xstate, s.nextpid, h)
  }
}
