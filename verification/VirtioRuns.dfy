/** Steps of the driver and the device over the shared queue, their invariant, and every run of them. */
module VirtioRuns {
  import opened FiniteSets
  import opened Virtio

  /** The requests in flight and the unread parts of both rings. */
  datatype Flight = Flight(own: map<nat, nat>, reqs: map<nat, Req>, pend: seq<nat>, done: seq<nat>)

  // ---------------------------------------------------------------- invariant

  /** The three descriptors of a request, as the device will read them. */
  ghost predicate Formatted(desc: seq<Desc>, ops: seq<Cmd>, bufs: map<nat, Buf>, h: nat, r: Req) {
    && h < |desc| && r.d1 < |desc| && r.d2 < |desc| && h < |ops| && r.b in bufs
    && desc[h] == Desc(Op(h), true, false, r.d1)
    && desc[r.d1] == Desc(Data(r.b), true, !r.out, r.d2)
    && desc[r.d2] == Desc(Status(h), false, true, 0)
    && ops[h] == Cmd(r.out, 2 * bufs[r.b].block)
  }

  ghost predicate Buffered(info: seq<Info>, bufs: map<nat, Buf>, h: nat, r: Req) {
    && h < |info| && r.b != 0 && r.b in bufs && info[h].b == r.b
    && bufs[r.b].busy == !r.stage.Released?
    && info[h].status == (if r.stage.Pending? || r.stage.Working? then NONE else 0)
    && (r.out || r.stage.Done? || r.stage.Released? ==> bufs[r.b].data == r.val)
  }

  /** Two requests are on two buffers. */
  ghost predicate Apart(reqs: map<nat, Req>, g: nat, h: nat) {
    g in reqs && h in reqs && g != h ==> reqs[g].b != reqs[h].b
  }

  ghost predicate Requests(desc: seq<Desc>, ops: seq<Cmd>, info: seq<Info>, bufs: map<nat, Buf>, reqs: map<nat, Req>) {
    && |desc| == NUM && |ops| == NUM && |info| == NUM
    && (forall h: nat {:trigger Formatted(desc, ops, bufs, h, reqs[h])} :: h in reqs ==>
          Formatted(desc, ops, bufs, h, reqs[h]))
    && (forall h: nat {:trigger Buffered(info, bufs, h, reqs[h])} :: h in reqs ==> Buffered(info, bufs, h, reqs[h]))
    && (forall g: nat, h: nat {:trigger Apart(reqs, g, h)} :: Apart(reqs, g, h))
    && (forall h: nat :: h < NUM && info[h].b != 0 ==> h in reqs)
  }

  ghost predicate InQueue(q: seq<nat>, reqs: map<nat, Req>, stage: Stage) {
    && (forall k :: 0 <= k < |q| ==> q[k] in reqs && reqs[q[k]].stage == stage)
    && (forall j, k :: 0 <= j < k < |q| ==> q[j] != q[k])
    && (forall h: nat :: h in reqs && reqs[h].stage == stage ==> h in q)
  }

  ghost predicate Staged(reqs: map<nat, Req>, pend: seq<nat>, work: set<nat>, done: seq<nat>) {
    && InQueue(pend, reqs, Pending)
    && InQueue(done, reqs, Done)
    && (forall h: nat :: h in work <==> h in reqs && reqs[h].stage.Working?)
  }

  ghost predicate Inv(s: State, f: Flight) {
    Held(s, f.own, f.reqs) && Queues(s, f.reqs, f.pend, f.done)
  }

  ghost predicate Held(s: State, own: map<nat, nat>, reqs: map<nat, Req>) {
    && Chains(s.free, own, reqs) && Counted(own, reqs)
    && Requests(s.desc, s.ops, s.info, s.bufs, reqs)
  }

  ghost predicate Queues(s: State, reqs: map<nat, Req>, pend: seq<nat>, done: seq<nat>) {
    && Staged(reqs, pend, s.work, done)
    && Ring(s.avail, s.taken, s.availIdx, pend)
    && Ring(s.used, s.seen, s.usedIdx, done)
  }

  // ---------------------------------------------------------------- steps

  datatype Label =
    | Submit(b: nat, out: bool, i0: nat, i1: nat, i2: nat)  // virtio_disk_rw up to its sleep
    | Take                                                   // the device reads the available ring
    | Complete(h: nat)                                       // the device carries out one chain it has taken
    | Interrupt                                              // one turn of the loop of virtio_disk_intr
    | Finish(h: nat)                                         // the rest of virtio_disk_rw

  /** What the driver's locks and the device's queue rules allow. */
  predicate Enabled(s: State, l: Label) {
    match l
    case Submit(b, out, i0, i1, i2) =>
      && b != 0 && b in s.bufs && !s.bufs[b].busy && (forall i :: 0 <= i < |s.info| ==> s.info[i].b != b)
      && i0 < |s.free| && i1 < |s.free| && i2 < |s.free| && i0 != i1 && i0 != i2 && i1 != i2
      && s.free[i0] && s.free[i1] && s.free[i2]
    case Take => s.taken != s.availIdx
    case Complete(h) => h in s.work
    case Interrupt => s.seen != s.usedIdx
    case Finish(h) => h < |s.info| && s.info[h].b in s.bufs && s.info[h].b != 0 && !s.bufs[s.info[h].b].busy
  }

  function DoSubmit(s: State, b: nat, out: bool, i0: nat, i1: nat, i2: nat): State
    requires |s.free| == |s.desc| == |s.ops| == |s.info| == |s.avail| == NUM && b in s.bufs
    requires i0 < NUM && i1 < NUM && i2 < NUM
  {
    s.(free := s.free[i0 := false][i1 := false][i2 := false],
       ops := s.ops[i0 := Cmd(out, 2 * s.bufs[b].block)],
       desc := s.desc[i0 := Desc(Op(i0), true, false, i1)][i1 := Desc(Data(b), true, !out, i2)][i2 := Desc(Status(i0),
           false, true, 0)],
       info := s.info[i0 := Info(b, NONE)],
       bufs := s.bufs[b := s.bufs[b].(busy := true)],
       avail := s.avail[s.availIdx % 8 := i0],
       availIdx := (s.availIdx + 1) % 65536)
  }

  function DoTake(s: State): State
    requires |s.avail| == NUM
  {
    s.(taken := (s.taken + 1) % 65536, work := s.work + {s.avail[s.taken % 8]})
  }

  /** The chain that starts at descriptor `h`, as the device walks it. */
  predicate Walkable(s: State, h: nat) {
    && h < |s.desc| && s.desc[h].addr.Op? && s.desc[h].addr.op < |s.ops| && s.desc[h].more && s.desc[h].next < |s.desc|
    && var d := s.desc[s.desc[h].next];
    && d.addr.Data? && d.addr.buf in s.bufs && d.more && d.next < |s.desc|
    && d.toBuf == !s.ops[s.desc[h].addr.op].out
    && s.desc[d.next].addr.Status? && s.desc[d.next].addr.info < |s.info| && !s.desc[d.next].more &&
        s.desc[d.next].toBuf
  }

  function BlockData(disk: map<nat, nat>, block: nat): nat {
    if block in disk then disk[block] else 0
  }

  /** The device reads the three descriptors, moves the data, stores the status and reports the head. */
  function DoComplete(s: State, h: nat): State
    requires Walkable(s, h) && |s.used| == NUM
  {
    var cmd := s.ops[s.desc[h].addr.op];
    var d1 := s.desc[s.desc[h].next];
    var d2 := s.desc[d1.next];
    var b := d1.addr.buf;
    var block := cmd.sector / 2;
    s.(disk := if cmd.out then s.disk[block := s.bufs[b].data] else s.disk,
       bufs := if cmd.out then s.bufs else s.bufs[b := s.bufs[b].(data := BlockData(s.disk, block))],
       info := s.info[d2.addr.info := s.info[d2.addr.info].(status := 0)],
       used := s.used[s.usedIdx % 8 := h],
       usedIdx := (s.usedIdx + 1) % 65536,
       work := s.work - {h})
  }

  predicate StatusPanic(s: State)
    requires |s.used| == NUM
  {
    var id := s.used[s.seen % 8];
    id >= |s.info| || s.info[id].status != 0
  }

  function DoInterrupt(s: State): State
    requires |s.used| == NUM && !StatusPanic(s) && s.info[s.used[s.seen % 8]].b in s.bufs
  {
    var b := s.info[s.used[s.seen % 8]].b;
    s.(bufs := s.bufs[b := s.bufs[b].(busy := false)], seen := (s.seen + 1) % 65536)
  }

  /** The chain that `free_chain` frees: it follows `next` while the flag says there is one. */
  predicate Freeable(s: State, h: nat) {
    && h < |s.desc| == |s.free| && s.desc[h].more && s.desc[h].next < |s.desc|
    && var d := s.desc[s.desc[h].next];
    && d.more && d.next < |s.desc| && !s.desc[d.next].more
    && h != s.desc[h].next && h != d.next && s.desc[h].next != d.next
    && !s.free[h] && !s.free[s.desc[h].next] && !s.free[d.next]
  }

  function DoFinish(s: State, h: nat): State
    requires Freeable(s, h) && h < |s.info|
  {
    var i1 := s.desc[h].next;
    var i2 := s.desc[i1].next;
    s.(info := s.info[h := s.info[h].(b := 0)],
       desc := s.desc[h := NODESC][i1 := NODESC][i2 := NODESC],
       free := s.free[h := true][i1 := true][i2 := true])
  }

  // ---------------------------------------------------------------- queues of heads

  function Elems(q: seq<nat>): (r: set<nat>)
    ensures forall x: nat :: x in r <==> x in q
  {
    if q == [] then {} else Elems(q[..|q| - 1]) + {q[|q| - 1]}
  }

  lemma {:induction false} DistinctSize(q: seq<nat>)
    requires forall j, k :: 0 <= j < k < |q| ==> q[j] != q[k]
    ensures |Elems(q)| == |q|
  {
    if q != [] {
      DistinctSize(q[..|q| - 1]);
    }
  }

  lemma QueueShort(s: State, f: Flight)
    requires Inv(s, f)
    ensures |f.pend| <= 2 && |f.done| <= 2
  {
    FewRequests(s.free, f.own, f.reqs);
    DistinctSize(f.pend);
    SubsetSize(Elems(f.pend), f.reqs.Keys);
    DistinctSize(f.done);
    SubsetSize(Elems(f.done), f.reqs.Keys);
  }

  lemma QueueAdd(q: seq<nat>, reqs: map<nat, Req>, h: nat, r: Req)
    requires InQueue(q, reqs, r.stage) && (h in reqs ==> reqs[h].stage != r.stage)
    ensures InQueue(q + [h], reqs[h := r], r.stage)
  {
  }

  lemma QueueDrop(q: seq<nat>, reqs: map<nat, Req>, stage: Stage, r: Req)
    requires InQueue(q, reqs, stage) && |q| > 0 && r.stage != stage
    ensures InQueue(q[1..], reqs[q[0] := r], stage)
  {
    var h := q[0];
    forall g: nat | g in reqs[h := r] && reqs[h := r][g].stage == stage
      ensures g in q[1..]
    {
      assert g in q;
    }
  }

  lemma QueueKeep(q: seq<nat>, reqs: map<nat, Req>, stage: Stage, h: nat, r: Req)
    requires InQueue(q, reqs, stage) && r.stage != stage && (h in reqs ==> reqs[h].stage != stage)
    ensures InQueue(q, reqs[h := r], stage)
  {
  }

  lemma QueueRemoved(q: seq<nat>, reqs: map<nat, Req>, stage: Stage, h: nat)
    requires InQueue(q, reqs, stage) && h in reqs && reqs[h].stage != stage
    ensures InQueue(q, reqs - {h}, stage)
  {
  }

  // ---------------------------------------------------------------- one step

  /** The flight after a step. */
  ghost function Track(s: State, f: Flight, l: Label): Flight {
    match l
    case Submit(b, out, i0, i1, i2) =>
      var r := Req(b, out, i1, i2, Pending, if out && b in s.bufs then s.bufs[b].data else 0);
      Flight(f.own[i0 := i0][i1 := i0][i2 := i0], f.reqs[i0 := r], f.pend + [i0], f.done)
    case Take =>
      if f.pend == [] || f.pend[0] !in f.reqs then f
      else f.(reqs := f.reqs[f.pend[0] := f.reqs[f.pend[0]].(stage := Working)], pend := f.pend[1..])
    case Complete(h) =>
      if h !in f.reqs || f.reqs[h].b !in s.bufs then f
      else
        var r := f.reqs[h];
        var v := if r.out then r.val else BlockData(s.disk, s.bufs[r.b].block);
        f.(reqs := f.reqs[h := r.(stage := Done, val := v)], done := f.done + [h])
    case Interrupt =>
      if f.done == [] || f.done[0] !in f.reqs then f
      else f.(reqs := f.reqs[f.done[0] := f.reqs[f.done[0]].(stage := Released)], done := f.done[1..])
    case Finish(h) =>
      if h !in f.reqs then f
      else f.(own := f.own - {h, f.reqs[h].d1, f.reqs[h].d2}, reqs := f.reqs - {h})
  }

  lemma RequestsSubmit(free: seq<bool>, own: map<nat, nat>, desc: seq<Desc>, ops: seq<Cmd>, info: seq<Info>,
                       bufs: map<nat, Buf>, reqs: map<nat, Req>, h: nat, r: Req)
    requires Chains(free, own, reqs) && Requests(desc, ops, info, bufs, reqs)
    requires h < NUM && r.d1 < NUM && r.d2 < NUM && h != r.d1 && h != r.d2 && r.d1 != r.d2
    requires free[h] && free[r.d1] && free[r.d2] && r.stage.Pending?
    requires r.b != 0 && r.b in bufs && (r.out ==> r.val == bufs[r.b].data)
    requires forall i :: 0 <= i < NUM ==> info[i].b != r.b
    ensures Requests(desc[h := Desc(Op(h), true, false, r.d1)][r.d1 := Desc(Data(r.b), true, !r.out, r.d2)]
                         [r.d2 := Desc(Status(h), false, true, 0)],
                     ops[h := Cmd(r.out, 2 * bufs[r.b].block)], info[h := Info(r.b, NONE)],
                     bufs[r.b := bufs[r.b].(busy := true)], reqs[h := r])
  {
    var desc' := desc[h := Desc(Op(h), true, false, r.d1)][r.d1 := Desc(Data(r.b), true, !r.out, r.d2)]
                     [r.d2 := Desc(Status(h), false, true, 0)];
    var ops', info' := ops[h := Cmd(r.out, 2 * bufs[r.b].block)], info[h := Info(r.b, NONE)];
    var bufs', reqs' := bufs[r.b := bufs[r.b].(busy := true)], reqs[h := r];
    forall g: nat | g in reqs'
      ensures Formatted(desc', ops', bufs', g, reqs'[g]) && Buffered(info', bufs', g, reqs'[g])
    {
      if g != h {
        assert OwnChain(g, reqs[g], own);
        assert Formatted(desc, ops, bufs, g, reqs[g]) && Buffered(info, bufs, g, reqs[g]);
      }
    }
    forall g: nat, k: nat
      ensures Apart(reqs', g, k)
    {
      assert Apart(reqs, g, k);
      assert g in reqs ==> Buffered(info, bufs, g, reqs[g]);
      assert k in reqs ==> Buffered(info, bufs, k, reqs[k]);
    }
  }

  lemma RequestsTake(desc: seq<Desc>, ops: seq<Cmd>, info: seq<Info>, bufs: map<nat, Buf>, reqs: map<nat, Req>, h: nat)
    requires Requests(desc, ops, info, bufs, reqs) && h in reqs && reqs[h].stage.Pending?
    ensures Requests(desc, ops, info, bufs, reqs[h := reqs[h].(stage := Working)])
  {
    var reqs' := reqs[h := reqs[h].(stage := Working)];
    forall g: nat | g in reqs'
      ensures Formatted(desc, ops, bufs, g, reqs'[g]) && Buffered(info, bufs, g, reqs'[g])
    {
      assert Formatted(desc, ops, bufs, g, reqs[g]) && Buffered(info, bufs, g, reqs[g]);
    }
    forall g: nat, k: nat
      ensures Apart(reqs', g, k)
    {
      assert Apart(reqs, g, k);
    }
  }

  lemma RequestsComplete(desc: seq<Desc>, ops: seq<Cmd>, info: seq<Info>, bufs: map<nat, Buf>, reqs: map<nat, Req>,
                         h: nat, v: nat)
    requires Requests(desc, ops, info, bufs, reqs) && h in reqs && reqs[h].stage.Working?
    ensures Buffered(info, bufs, h, reqs[h]) && reqs[h].b in bufs
    ensures var r := reqs[h];
            Requests(desc, ops, info[h := info[h].(status := 0)], if r.out then bufs
                else bufs[r.b := bufs[r.b].(data := v)],
                     reqs[h := r.(stage := Done, val := if r.out then r.val else v)])
  {
    var r := reqs[h];
    assert Buffered(info, bufs, h, r);
    var info' := info[h := info[h].(status := 0)];
    var bufs' := if r.out then bufs else bufs[r.b := bufs[r.b].(data := v)];
    var reqs' := reqs[h := r.(stage := Done, val := if r.out then r.val else v)];
    forall g: nat | g in reqs'
      ensures Formatted(desc, ops, bufs', g, reqs'[g]) && Buffered(info', bufs', g, reqs'[g])
    {
      assert Apart(reqs, g, h);
      assert Formatted(desc, ops, bufs, g, reqs[g]) && Buffered(info, bufs, g, reqs[g]);
    }
    forall g: nat, k: nat
      ensures Apart(reqs', g, k)
    {
      assert Apart(reqs, g, k);
    }
  }

  lemma RequestsInterrupt(desc: seq<Desc>, ops: seq<Cmd>, info: seq<Info>, bufs: map<nat, Buf>, reqs: map<nat, Req>,
                          h: nat)
    requires Requests(desc, ops, info, bufs, reqs) && h in reqs && reqs[h].stage.Done?
    ensures reqs[h].b in bufs
    ensures Requests(desc, ops, info, bufs[reqs[h].b := bufs[reqs[h].b].(busy := false)],
      reqs[h := reqs[h].(stage := Released)])
  {
    assert Buffered(info, bufs, h, reqs[h]);
    var bufs' := bufs[reqs[h].b := bufs[reqs[h].b].(busy := false)];
    var reqs' := reqs[h := reqs[h].(stage := Released)];
    forall g: nat | g in reqs'
      ensures Formatted(desc, ops, bufs', g, reqs'[g]) && Buffered(info, bufs', g, reqs'[g])
    {
      assert Apart(reqs, g, h);
      assert Formatted(desc, ops, bufs, g, reqs[g]) && Buffered(info, bufs, g, reqs[g]);
    }
    forall g: nat, k: nat
      ensures Apart(reqs', g, k)
    {
      assert Apart(reqs, g, k);
    }
  }

  lemma RequestsFinish(free: seq<bool>, own: map<nat, nat>, desc: seq<Desc>, ops: seq<Cmd>, info: seq<Info>,
                       bufs: map<nat, Buf>, reqs: map<nat, Req>, h: nat)
    requires Chains(free, own, reqs) && Requests(desc, ops, info, bufs, reqs) && h in reqs
    ensures h < NUM && reqs[h].d1 < NUM && reqs[h].d2 < NUM
    ensures Requests(desc[h := NODESC][reqs[h].d1 := NODESC][reqs[h].d2 := NODESC], ops, info[h := info[h].(b := 0)],
      bufs, reqs - {h})
  {
    var r := reqs[h];
    assert Formatted(desc, ops, bufs, h, r);
    var desc', info', reqs' := desc[h := NODESC][r.d1 := NODESC][r.d2 := NODESC], info[h := info[h].(b := 0)],
      reqs - {h};
    forall g: nat | g in reqs'
      ensures Formatted(desc', ops, bufs, g, reqs'[g]) && Buffered(info', bufs, g, reqs'[g])
    {
      assert OwnChain(g, reqs[g], own) && OwnChain(h, r, own);
      assert Formatted(desc, ops, bufs, g, reqs[g]) && Buffered(info, bufs, g, reqs[g]);
    }
    forall g: nat, k: nat
      ensures Apart(reqs', g, k)
    {
      assert Apart(reqs, g, k);
    }
  }

  /** The device, reading only descriptors and rings, carries out exactly the request whose head it took. */
  lemma DeviceDoesRequest(s: State, f: Flight, h: nat)
    requires Inv(s, f) && h in f.reqs
    ensures Walkable(s, h) && Formatted(s.desc, s.ops, s.bufs, h, f.reqs[h]) && h < |s.info|
    ensures var s', r := DoComplete(s, h), f.reqs[h];
            && s'.disk == (if r.out then s.disk[s.bufs[r.b].block := s.bufs[r.b].data] else s.disk)
            && s'.bufs == (if r.out then s.bufs
                           else s.bufs[r.b := s.bufs[r.b].(data := BlockData(s.disk, s.bufs[r.b].block))])
            && s'.info == s.info[h := s.info[h].(status := 0)]
  {
    assert Formatted(s.desc, s.ops, s.bufs, h, f.reqs[h]);
    assert 2 * s.bufs[f.reqs[h].b].block / 2 == s.bufs[f.reqs[h].b].block;
  }

  /** A completion is found by its head, has status 0, and its buffer is the one of its own request. */
  lemma InterruptFindsOwn(s: State, f: Flight)
    requires Inv(s, f) && s.seen != s.usedIdx
    ensures |f.done| > 0 && s.used[s.seen % 8] == f.done[0] && f.done[0] in f.reqs
    ensures !StatusPanic(s) && s.info[f.done[0]].b == f.reqs[f.done[0]].b && f.reqs[f.done[0]].b in s.bufs
    ensures s.bufs[f.reqs[f.done[0]].b].busy
  {
    RingPop(s.used, s.seen, s.usedIdx, f.done);
    assert Buffered(s.info, s.bufs, f.done[0], f.reqs[f.done[0]]);
  }

  /** The waiter whose buffer is released frees exactly its own three descriptors, none of them free already. */
  lemma FinishFreesOwn(s: State, f: Flight, h: nat)
    requires Inv(s, f) && Enabled(s, Finish(h))
    ensures h in f.reqs && f.reqs[h].stage.Released? && Freeable(s, h)
    ensures s.desc[h].next == f.reqs[h].d1 && s.desc[s.desc[h].next].next == f.reqs[h].d2
  {
    assert h in f.reqs;
    assert Formatted(s.desc, s.ops, s.bufs, h, f.reqs[h]) && Buffered(s.info, s.bufs, h, f.reqs[h]);
    assert OwnChain(h, f.reqs[h], f.own);
  }

  lemma SubmitInv(s: State, f: Flight, b: nat, out: bool, i0: nat, i1: nat, i2: nat)
    requires Inv(s, f) && Enabled(s, Submit(b, out, i0, i1, i2))
    ensures Inv(DoSubmit(s, b, out, i0, i1, i2), Track(s, f, Submit(b, out, i0, i1, i2)))
  {
    var r, s' := Req(b, out, i1, i2, Pending, if out then s.bufs[b].data else 0), DoSubmit(s, b, out, i0, i1, i2);
    QueueShort(s, f);
    SubmitHeld(s, f.own, f.reqs, i0, r);
    SubmitQueues(s, s', f.reqs, f.pend, f.done, i0, r);
    var own, reqs := f.own[i0 := i0][i1 := i0][i2 := i0], f.reqs[i0 := r];
    assert Track(s, f, Submit(b, out, i0, i1, i2)) == Flight(own, reqs, f.pend + [i0], f.done);
  }

  lemma SubmitHeld(s: State, own: map<nat, nat>, reqs: map<nat, Req>, h: nat, r: Req)
    requires Held(s, own, reqs) && Enabled(s, Submit(r.b, r.out, h, r.d1, r.d2)) && |s.avail| == NUM
    requires r.stage.Pending? && r.val == if r.out then s.bufs[r.b].data else 0
    ensures h !in reqs
    ensures Held(DoSubmit(s, r.b, r.out, h, r.d1, r.d2), own[h := h][r.d1 := h][r.d2 := h], reqs[h := r])
  {
    ChainsAdd(s.free, own, reqs, h, r);
    CountedAdd(own, reqs, h, r);
    RequestsSubmit(s.free, own, s.desc, s.ops, s.info, s.bufs, reqs, h, r);
  }

  lemma SubmitQueues(s: State, s': State, reqs: map<nat, Req>, pend: seq<nat>, done: seq<nat>, h: nat, r: Req)
    requires Queues(s, reqs, pend, done) && |pend| < 8 && h !in reqs && r.stage.Pending?
    requires s'.work == s.work && s'.taken == s.taken && s'.used == s.used && s'.seen == s.seen
    requires s'.usedIdx == s.usedIdx
    requires s'.avail == s.avail[s.availIdx % 8 := h] && s'.availIdx == (s.availIdx + 1) % 65536
    ensures Queues(s', reqs[h := r], pend + [h], done)
  {
    QueueAdd(pend, reqs, h, r);
    QueueKeep(done, reqs, Done, h, r);
    RingPush(s.avail, s.taken, s.availIdx, pend, h);
  }

  lemma TakesHead(s: State, f: Flight)
    requires Queues(s, f.reqs, f.pend, f.done) && s.taken != s.availIdx
    ensures |s.avail| == NUM && |f.pend| > 0 && s.avail[s.taken % 8] == f.pend[0]
    ensures f.pend[0] in f.reqs && f.reqs[f.pend[0]].stage.Pending?
  {
    RingPop(s.avail, s.taken, s.availIdx, f.pend);
  }

  lemma TakeKeepsHeld(s: State, f: Flight)
    requires Inv(s, f) && Enabled(s, Take)
    ensures var f' := Track(s, f, Take); Held(DoTake(s), f'.own, f'.reqs)
  {
    TakesHead(s, f);
    TakeHeld(s, DoTake(s), f.own, f.reqs, f.pend[0], f.reqs[f.pend[0]].(stage := Working));
  }

  lemma TakeKeepsQueues(s: State, f: Flight)
    requires Inv(s, f) && Enabled(s, Take)
    ensures var f' := Track(s, f, Take); Queues(DoTake(s), f'.reqs, f'.pend, f'.done)
  {
    TakesHead(s, f);
    TakeQueues(s, DoTake(s), f.reqs, f.pend, f.done, f.reqs[f.pend[0]].(stage := Working));
  }

  lemma TakeInv(s: State, f: Flight)
    requires Inv(s, f) && Enabled(s, Take)
    ensures Inv(DoTake(s), Track(s, f, Take))
  {
    TakeKeepsHeld(s, f);
    TakeKeepsQueues(s, f);
  }

  lemma TakeHeld(s: State, s': State, own: map<nat, nat>, reqs: map<nat, Req>, h: nat, r: Req)
    requires Held(s, own, reqs) && h in reqs && reqs[h].stage.Pending? && r == reqs[h].(stage := Working)
    requires s'.free == s.free && s'.desc == s.desc && s'.ops == s.ops && s'.info == s.info && s'.bufs == s.bufs
    ensures Held(s', own, reqs[h := r])
  {
    ChainsRetag(s.free, own, reqs, h, r);
    CountedStage(own, reqs, h, r);
    RequestsTake(s.desc, s.ops, s.info, s.bufs, reqs, h);
  }

  lemma TakeQueues(s: State, s': State, reqs: map<nat, Req>, pend: seq<nat>, done: seq<nat>, r: Req)
    requires Queues(s, reqs, pend, done) && |pend| > 0 && r.stage.Working?
    requires s'.work == s.work + {pend[0]} && s'.avail == s.avail && s'.taken == (s.taken + 1) % 65536
    requires s'.availIdx == s.availIdx
    requires s'.used == s.used && s'.seen == s.seen && s'.usedIdx == s.usedIdx
    ensures Queues(s', reqs[pend[0] := r], pend[1..], done)
  {
    RingPop(s.avail, s.taken, s.availIdx, pend);
    QueueDrop(pend, reqs, Pending, r);
    QueueKeep(done, reqs, Done, pend[0], r);
  }

  /** The request as it is once the device has carried it out. */
  ghost function Completed(s: State, r: Req): Req {
    r.(stage := Done, val := if r.out || r.b !in s.bufs then r.val else BlockData(s.disk, s.bufs[r.b].block))
  }

  lemma CompleteKeepsHeld(s: State, f: Flight, h: nat)
    requires Inv(s, f) && Enabled(s, Complete(h)) && Walkable(s, h)
    ensures var f' := Track(s, f, Complete(h)); Held(DoComplete(s, h), f'.own, f'.reqs)
  {
    DeviceDoesRequest(s, f, h);
    var v := BlockData(s.disk, s.bufs[f.reqs[h].b].block);
    CompleteHeld(s, DoComplete(s, h), f.own, f.reqs, h, v, Completed(s, f.reqs[h]));
  }

  lemma CompleteKeepsQueues(s: State, f: Flight, h: nat)
    requires Inv(s, f) && Enabled(s, Complete(h)) && Walkable(s, h)
    ensures var f' := Track(s, f, Complete(h)); Queues(DoComplete(s, h), f'.reqs, f'.pend, f'.done)
  {
    DeviceDoesRequest(s, f, h);
    QueueShort(s, f);
    var s', r := DoComplete(s, h), Completed(s, f.reqs[h]);
    CompleteQueues(s, s', f.reqs, f.pend, f.done, h, r);
    assert Track(s, f, Complete(h)) == f.(reqs := f.reqs[h := r], done := f.done + [h]);
  }

  lemma CompleteInv(s: State, f: Flight, h: nat)
    requires Inv(s, f) && Enabled(s, Complete(h))
    ensures Walkable(s, h) && Inv(DoComplete(s, h), Track(s, f, Complete(h)))
  {
    DeviceDoesRequest(s, f, h);
    CompleteKeepsHeld(s, f, h);
    CompleteKeepsQueues(s, f, h);
  }

  lemma CompleteHeld(s: State, s': State, own: map<nat, nat>, reqs: map<nat, Req>, h: nat, v: nat, r: Req)
    requires Held(s, own, reqs) && h in reqs && reqs[h].stage.Working? && h < |s.info| && r.b in s.bufs
    requires r == reqs[h].(stage := Done, val := if reqs[h].out then reqs[h].val else v)
    requires s'.free == s.free && s'.desc == s.desc && s'.ops == s.ops
    requires s'.info == s.info[h := s.info[h].(status := 0)]
    requires s'.bufs == if r.out then s.bufs else s.bufs[r.b := s.bufs[r.b].(data := v)]
    ensures Held(s', own, reqs[h := r])
  {
    ChainsRetag(s.free, own, reqs, h, r);
    CountedStage(own, reqs, h, r);
    RequestsComplete(s.desc, s.ops, s.info, s.bufs, reqs, h, v);
  }

  lemma CompleteQueues(s: State, s': State, reqs: map<nat, Req>, pend: seq<nat>, done: seq<nat>, h: nat, r: Req)
    requires Queues(s, reqs, pend, done) && |done| < 8 && h in reqs && reqs[h].stage.Working? && r.stage.Done?
    requires s'.work == s.work - {h} && s'.avail == s.avail && s'.taken == s.taken && s'.availIdx == s.availIdx
    requires s'.used == s.used[s.usedIdx % 8 := h] && s'.seen == s.seen && s'.usedIdx == (s.usedIdx + 1) % 65536
    ensures Queues(s', reqs[h := r], pend, done + [h])
  {
    QueueAdd(done, reqs, h, r);
    QueueKeep(pend, reqs, Pending, h, r);
    RingPush(s.used, s.seen, s.usedIdx, done, h);
  }

  lemma InterruptInv(s: State, f: Flight)
    requires Inv(s, f) && Enabled(s, Interrupt)
    ensures !StatusPanic(s) && s.info[s.used[s.seen % 8]].b in s.bufs
    ensures Inv(DoInterrupt(s), Track(s, f, Interrupt))
  {
    InterruptFindsOwn(s, f);
    InterruptKeepsHeld(s, f);
    InterruptKeepsQueues(s, f);
  }

  lemma InterruptKeepsHeld(s: State, f: Flight)
    requires Inv(s, f) && Enabled(s, Interrupt) && !StatusPanic(s) && s.info[s.used[s.seen % 8]].b in s.bufs
    ensures var f' := Track(s, f, Interrupt); Held(DoInterrupt(s), f'.own, f'.reqs)
  {
    InterruptFindsOwn(s, f);
    var h, s' := f.done[0], DoInterrupt(s);
    InterruptHeld(s, s', f.own, f.reqs, h, f.reqs[h].(stage := Released));
  }

  lemma InterruptKeepsQueues(s: State, f: Flight)
    requires Inv(s, f) && Enabled(s, Interrupt) && !StatusPanic(s) && s.info[s.used[s.seen % 8]].b in s.bufs
    ensures var f' := Track(s, f, Interrupt); Queues(DoInterrupt(s), f'.reqs, f'.pend, f'.done)
  {
    InterruptFindsOwn(s, f);
    var h, s' := f.done[0], DoInterrupt(s);
    InterruptQueues(s, s', f.reqs, f.pend, f.done, f.reqs[h].(stage := Released));
  }

  lemma InterruptHeld(s: State, s': State, own: map<nat, nat>, reqs: map<nat, Req>, h: nat, r: Req)
    requires Held(s, own, reqs) && h in reqs && reqs[h].stage.Done? && r == reqs[h].(stage := Released) && r.b in s.bufs
    requires s'.free == s.free && s'.desc == s.desc && s'.ops == s.ops && s'.info == s.info
    requires s'.bufs == s.bufs[r.b := s.bufs[r.b].(busy := false)]
    ensures Held(s', own, reqs[h := r])
  {
    ChainsRetag(s.free, own, reqs, h, r);
    CountedStage(own, reqs, h, r);
    RequestsInterrupt(s.desc, s.ops, s.info, s.bufs, reqs, h);
  }

  lemma InterruptQueues(s: State, s': State, reqs: map<nat, Req>, pend: seq<nat>, done: seq<nat>, r: Req)
    requires Queues(s, reqs, pend, done) && |done| > 0 && r.stage.Released?
    requires s'.work == s.work && s'.avail == s.avail && s'.taken == s.taken && s'.availIdx == s.availIdx
    requires s'.used == s.used && s'.seen == (s.seen + 1) % 65536 && s'.usedIdx == s.usedIdx
    ensures Queues(s', reqs[done[0] := r], pend, done[1..])
  {
    RingPop(s.used, s.seen, s.usedIdx, done);
    QueueDrop(done, reqs, Done, r);
    QueueKeep(pend, reqs, Pending, done[0], r);
  }

  lemma FinishInv(s: State, f: Flight, h: nat)
    requires Inv(s, f) && Enabled(s, Finish(h))
    ensures Freeable(s, h) && Inv(DoFinish(s, h), Track(s, f, Finish(h)))
  {
    FinishFreesOwn(s, f, h);
    ChainsDrop(s.free, f.own, f.reqs, h);
    CountedDrop(f.own, f.reqs, h);
    RequestsFinish(s.free, f.own, s.desc, s.ops, s.info, s.bufs, f.reqs, h);
    QueueRemoved(f.pend, f.reqs, Pending, h);
    QueueRemoved(f.done, f.reqs, Done, h);
  }

  // ---------------------------------------------------------------- runs

  /** One step, and nothing where a panic or a broken chain would stop it. */
  function Next(s: State, l: Label): State {
    if !Enabled(s, l) || |s.free| != NUM || |s.desc| != NUM || |s.ops| != NUM || |s.info| != NUM || |s.avail| != NUM ||
        |s.used| != NUM then s
    else
      match l
      case Submit(b, out, i0, i1, i2) => DoSubmit(s, b, out, i0, i1, i2)
      case Take => DoTake(s)
      case Complete(h) => if Walkable(s, h) then DoComplete(s, h) else s
      case Interrupt => if !StatusPanic(s) && s.info[s.used[s.seen % 8]].b in s.bufs then DoInterrupt(s) else s
      case Finish(h) => if Freeable(s, h) then DoFinish(s, h) else s
  }

  /** No step of the driver or the device can go wrong. */
  ghost predicate Sound(s: State, l: Label) {
    Enabled(s, l) ==>
      match l
      case Submit(_, _, _, _, _) => true
      case Take => true
      case Complete(h) => Walkable(s, h)
      case Interrupt => |s.used| == NUM && !StatusPanic(s) && s.info[s.used[s.seen % 8]].b in s.bufs
      case Finish(h) => Freeable(s, h)
  }

  lemma StepInv(s: State, f: Flight, l: Label)
    requires Inv(s, f)
    ensures Sound(s, l)
    ensures Inv(Next(s, l), if Enabled(s, l) then Track(s, f, l) else f)
  {
    if Enabled(s, l) {
      match l
      case Submit(b, out, i0, i1, i2) => SubmitInv(s, f, b, out, i0, i1, i2);
      case Take => TakeInv(s, f);
      case Complete(h) => CompleteInv(s, f, h);
      case Interrupt => InterruptInv(s, f);
      case Finish(h) => FinishInv(s, f, h);
    }
  }

  function Run(s: State, ls: seq<Label>): State {
    if ls == [] then s else Next(Run(s, ls[..|ls| - 1]), ls[|ls| - 1])
  }

  ghost function Flights(s: State, f: Flight, ls: seq<Label>): Flight {
    if ls == [] then f
    else
      var before := Run(s, ls[..|ls| - 1]);
      var flight := Flights(s, f, ls[..|ls| - 1]);
      if Enabled(before, ls[|ls| - 1]) then Track(before, flight, ls[|ls| - 1]) else flight
  }

  /**
   * Every run from an idle queue keeps the invariant, whatever step comes next is sound, and at most two requests fly.
   */
  lemma {:induction false} RunInv(s: State, f: Flight, ls: seq<Label>, next: Label)
    requires Inv(s, f)
    ensures Inv(Run(s, ls), Flights(s, f, ls)) && Sound(Run(s, ls), next)
    ensures |Flights(s, f, ls).reqs.Keys| <= NUM / 3
    decreases |ls|
  {
    if ls != [] {
      RunInv(s, f, ls[..|ls| - 1], next);
      StepInv(Run(s, ls[..|ls| - 1]), Flights(s, f, ls[..|ls| - 1]), ls[|ls| - 1]);
    }
    StepInv(Run(s, ls), Flights(s, f, ls), next);
    FewRequests(Run(s, ls).free, Flights(s, f, ls).own, Flights(s, f, ls).reqs);
  }

  lemma IdleHeld(s: State)
    requires |s.free| == |s.desc| == |s.ops| == |s.info| == NUM
    requires forall i :: 0 <= i < NUM ==> s.free[i] && s.info[i].b == 0
    ensures Held(s, map[], map[])
  {
  }

  lemma IdleQueues(s: State)
    requires |s.avail| == |s.used| == NUM && s.availIdx == s.taken < 65536 && s.usedIdx == s.seen < 65536
    requires s.work == {}
    ensures Queues(s, map[], [], [])
  {
  }

  /** The queue after virtio_disk_init satisfies the invariant, with nothing in flight. */
  lemma IdleInv(s: State)
    requires |s.free| == |s.desc| == |s.ops| == |s.info| == |s.avail| == |s.used| == NUM
    requires forall i :: 0 <= i < NUM ==> s.free[i] && s.info[i].b == 0
    requires s.availIdx == s.taken < 65536 && s.usedIdx == s.seen < 65536 && s.work == {}
    ensures Inv(s, Flight(map[], map[], [], []))
  {
    IdleHeld(s);
    IdleQueues(s);
  }

  /**
   * When its waiter is about to finish, a read's buffer holds what the device fetched and a write's is as submitted.
   */
  lemma FinishedData(s: State, f: Flight, h: nat)
    requires Inv(s, f) && Enabled(s, Finish(h))
    ensures h in f.reqs && f.reqs[h].b in s.bufs
    ensures s.bufs[f.reqs[h].b].data == f.reqs[h].val
  {
    FinishFreesOwn(s, f, h);
    assert Buffered(s.info, s.bufs, h, f.reqs[h]);
  }
}
