/** The driver's functions, under the disk lock, as methods that follow the steps of the queue protocol. */
module VirtioCode {
  import opened Virtio
  import opened VirtioRuns

  class Disk {
    var s: State

    /** The queue is consistent with the requests in flight. */
    ghost predicate Valid(f: Flight)
      reads this
    {
      Inv(s, f)
    }

    /** The queue as set up by virtio_disk_init, with idle buffers and some disk contents. */
    constructor (bufs: map<nat, Buf>, disk: map<nat, nat>)
      ensures Valid(Flight(map[], map[], [], [])) && s.bufs == bufs && s.disk == disk
    {
      s := State(seq(8, _ => true), seq(8, _ => NODESC), seq(8, _ => Cmd(false, 0)), seq(8, _ => Info(0, 0)),
                 seq(8, _ => 0), 0, seq(8, _ => 0), 0, 0, bufs, 0, {}, disk);
      new;
      IdleInv(s);
    }

    /** Takes the lowest free descriptor, or says there is none. */
    method AllocDesc() returns (r: int)
      requires |s.free| == NUM
      modifies this`s
      ensures r == -1 ==> s == old(s) && forall i :: 0 <= i < NUM ==> !s.free[i]
      ensures r != -1 ==> 0 <= r < NUM && old(s).free[r] && forall i :: 0 <= i < r ==> !old(s).free[i]
      ensures r != -1 ==> s == old(s).(free := old(s).free[r := false])
    {
      var i := 0;
      while i < NUM
        invariant 0 <= i <= NUM && s == old(s)
        invariant forall j :: 0 <= j < i ==> !s.free[j]
      {
        if s.free[i] {
          s := s.(free := s.free[i := false]);
          return i;
        }
        i := i + 1;
      }
      return -1;
    }

    /** Frees a descriptor that is in use; both panics of free_desc are this precondition. */
    method FreeDesc(i: nat)
      requires i < |s.free| == |s.desc| && !s.free[i]
      modifies this`s
      ensures s == old(s).(desc := old(s).desc[i := NODESC], free := old(s).free[i := true])
    {
      s := s.(desc := s.desc[i := NODESC]);
      s := s.(free := s.free[i := true]);
    }

    /** Three free descriptors, or none taken: then fewer than three are free and only unused entries were cleared. */
    method Alloc3Desc() returns (ok: bool, idx: seq<nat>)
      requires |s.free| == NUM && |s.desc| == NUM
      modifies this`s
      ensures ok ==> |idx| == 3 && idx[0] < idx[1] < idx[2] < NUM
      ensures ok ==> old(s).free[idx[0]] && old(s).free[idx[1]] && old(s).free[idx[2]]
      ensures ok ==> s == old(s).(free := old(s).free[idx[0] := false][idx[1] := false][idx[2] := false])
      ensures !ok ==> s == old(s).(desc := s.desc) && |s.desc| == NUM
      ensures !ok ==> forall i :: 0 <= i < NUM && !s.free[i] ==> s.desc[i] == old(s).desc[i]
      ensures !ok ==> forall i, j, k :: 0 <= i < j < k < NUM ==> !s.free[i] || !s.free[j] || !s.free[k]
    {
      var i0 := AllocDesc();
      if i0 < 0 {
        return false, [];
      }
      var i1 := AllocDesc();
      if i1 < 0 {
        FreeDesc(i0);
        assert s.free == old(s).free;
        return false, [];
      }
      var i2 := AllocDesc();
      if i2 < 0 {
        FreeDesc(i0);
        FreeDesc(i1);
        assert s.free == old(s).free;
        return false, [];
      }
      return true, [i0, i1, i2];
    }

    /** Fills in the command, the three descriptors and the available ring. */
    method Format(ghost s0: State, b: nat, out: bool, h: nat, i1: nat, i2: nat)
      requires |s0.free| == |s0.desc| == |s0.ops| == |s0.info| == |s0.avail| == NUM && b in s0.bufs
      requires h < NUM && i1 < NUM && i2 < NUM
      requires s == s0.(free := s0.free[h := false][i1 := false][i2 := false])
      modifies this`s
      ensures s == DoSubmit(s0, b, out, h, i1, i2)
    {
      s := s.(ops := s.ops[h := Cmd(out, s.bufs[b].block * 2)]);
      s := s.(desc := s.desc[h := Desc(Op(h), true, false, i1)]);
      s := s.(desc := s.desc[i1 := Desc(Data(b), true, !out, i2)]);
      s := s.(info := s.info[h := s.info[h].(status := NONE)]);
      s := s.(desc := s.desc[i2 := Desc(Status(h), false, true, 0)]);
      s := s.(bufs := s.bufs[b := s.bufs[b].(busy := true)]);
      s := s.(info := s.info[h := s.info[h].(b := b)]);
      s := s.(avail := s.avail[s.availIdx % 8 := h]);
      s := s.(availIdx := (s.availIdx + 1) % 65536);
      assert s.info == s0.info[h := Info(b, NONE)];
    }

    /** virtio_disk_rw up to its wait; false when it has to sleep for descriptors. */
    method Start(ghost f: Flight, b: nat, out: bool) returns (ok: bool, h: nat, ghost l: Label, ghost f': Flight)
      requires Valid(f) && b != 0 && b in s.bufs && !s.bufs[b].busy
      requires forall i :: 0 <= i < |s.info| ==> s.info[i].b != b
      modifies this
      ensures Valid(f')
      ensures !ok ==> f' == f && s == old(s).(desc := s.desc)
      ensures !ok ==> forall i, j, k :: 0 <= i < j < k < NUM ==> !s.free[i] || !s.free[j] || !s.free[k]
      ensures ok ==> l.Submit? && l.b == b && l.out == out && l.i0 == h && Enabled(old(s), l)
      ensures ok ==> s == Next(old(s), l) && f' == Track(old(s), f, l)
    {
      var idx;
      ghost var s0 := s;
      ok, idx := Alloc3Desc();
      h, l, f' := 0, Take, f;
      if !ok {
        UnusedCleared(s0, s, f);
        return;
      }
      h := idx[0];
      l, f' := Submitted(s0, f, b, out, h, idx[1], idx[2]);
      Format(s0, b, out, h, idx[1], idx[2]);
    }

    /** Frees the chain that starts at `h` by following its links. */
    method FreeChain(h: nat)
      requires Freeable(s, h) && h < |s.info|
      modifies this`s
      ensures s == DoFinish(old(s), h).(info := old(s).info)
    {
      ghost var s0 := s;
      ghost var i1 := s.desc[h].next;
      ghost var i2 := s.desc[i1].next;
      var i, more := h, true;
      ghost var k := 0;
      while more
        invariant 0 <= k <= 3 && more == (k < 3)
        invariant k == 0 ==> i == h && s == s0
        invariant k == 1 ==> i == i1 && s == s0.(desc := s0.desc[h := NODESC], free := s0.free[h := true])
        invariant k == 2 ==>
          i == i2 && s == s0.(desc := s0.desc[h := NODESC][i1 := NODESC], free := s0.free[h := true][i1 := true])
        invariant k == 3 ==> s == s0.(desc := s0.desc[h := NODESC][i1 := NODESC][i2 := NODESC],
                                      free := s0.free[h := true][i1 := true][i2 := true])
        decreases 3 - k
      {
        var flag, nxt := s.desc[i].more, s.desc[i].next;
        FreeDesc(i);
        if flag {
          i := nxt;
        } else {
          more := false;
        }
        k := k + 1;
      }
    }

    /**
     * The rest of virtio_disk_rw once `b->disk` is clear: the buffer holds the request's data and its chain is free
     * again.
     */
    method End(ghost f: Flight, h: nat, b: nat) returns (ghost f': Flight)
      requires Valid(f) && h in f.reqs && f.reqs[h].b == b && b in s.bufs && !s.bufs[b].busy
      modifies this
      ensures Valid(f') && s == Next(old(s), Finish(h)) && f' == Track(old(s), f, Finish(h))
      ensures s.bufs == old(s).bufs && b in s.bufs && s.bufs[b].data == f.reqs[h].val
    {
      ghost var s0 := s;
      f' := EndReady(s, f, h, b);
      FreeChain(h);
      s := s.(info := s.info[h := s.info[h].(b := 0)]);
      assert s == DoFinish(s0, h);
    }

    /** virtio_disk_intr: releases the buffers of all reported requests, each its own, and no other. */
    method Intr(ghost f: Flight) returns (ghost f': Flight)
      requires Valid(f)
      modifies this
      ensures Valid(f') && f'.done == []
      ensures s == old(s).(bufs := s.bufs, seen := s.usedIdx) && s.bufs == Release(old(s).bufs, Owners(f.reqs, f.done))
    {
      f' := f;
      while s.seen != s.usedIdx
        invariant Valid(f') && s == old(s).(bufs := s.bufs, seen := s.seen)
        invariant Release(s.bufs, Owners(f'.reqs, f'.done)) == Release(old(s).bufs, Owners(f.reqs, f.done))
        decreases |f'.done|
      {
        f' := TurnReleases(s, f');
        ReleaseNext();
      }
      RingPop(s.used, s.seen, s.usedIdx, f'.done);
    }

    /** One turn of the loop: the next used entry names the head of a chain, whose buffer is released. */
    method ReleaseNext()
      requires |s.used| == NUM && !StatusPanic(s) && s.info[s.used[s.seen % 8]].b in s.bufs
      modifies this`s
      ensures s == DoInterrupt(old(s))
    {
      var id := s.used[s.seen % 8];
      var b := s.info[id].b;
      s := s.(bufs := s.bufs[b := s.bufs[b].(busy := false)]);
      s := s.(seen := (s.seen + 1) % 65536);
    }
  }

  lemma EndReady(s: State, f: Flight, h: nat, b: nat) returns (f': Flight)
    requires Inv(s, f) && h in f.reqs && f.reqs[h].b == b && b in s.bufs && !s.bufs[b].busy
    ensures Enabled(s, Finish(h)) && Freeable(s, h) && h < |s.info| && s.bufs[b].data == f.reqs[h].val
    ensures f' == Track(s, f, Finish(h)) && Inv(DoFinish(s, h), f') && Next(s, Finish(h)) == DoFinish(s, h)
  {
    assert Buffered(s.info, s.bufs, h, f.reqs[h]);
    FinishInv(s, f, h);
    FinishedData(s, f, h);
    f' := Track(s, f, Finish(h));
  }

  lemma TurnReleases(s: State, f: Flight) returns (f': Flight)
    requires Inv(s, f) && s.seen != s.usedIdx
    ensures |s.used| == NUM && !StatusPanic(s) && s.info[s.used[s.seen % 8]].b in s.bufs
    ensures Inv(DoInterrupt(s), f') && |f'.done| == |f.done| - 1
    ensures Release(DoInterrupt(s).bufs, Owners(f'.reqs, f'.done)) == Release(s.bufs, Owners(f.reqs, f.done))
  {
    InterruptFindsOwn(s, f);
    InterruptInv(s, f);
    OwnersTurn(s.bufs, f.reqs, f.done);
    f' := Track(s, f, Interrupt);
  }

  /** Releasing the first buffer of the queue leaves the others to be released. */
  lemma OwnersTurn(bufs: map<nat, Buf>, reqs: map<nat, Req>, q: seq<nat>)
    requires |q| > 0 && q[0] in reqs && reqs[q[0]].b in bufs
    ensures var b, reqs' := reqs[q[0]].b, reqs[q[0] := reqs[q[0]].(stage := Released)];
      Release(bufs[b := bufs[b].(busy := false)], Owners(reqs', q[1..])) == Release(bufs, Owners(reqs, q))
  {
    var b, reqs' := reqs[q[0]].b, reqs[q[0] := reqs[q[0]].(stage := Released)];
    var rest := Owners(reqs', q[1..]);
    OwnersNext(reqs, q);
    assert ([b] + rest)[1..] == rest;
  }

  /** The buffers of a queue of heads. */
  ghost function Owners(reqs: map<nat, Req>, q: seq<nat>): (r: seq<nat>)
    ensures |r| == |q|
  {
    if q == [] then [] else [if q[0] in reqs then reqs[q[0]].b else 0] + Owners(reqs, q[1..])
  }

  lemma {:induction false} OwnersRetag(reqs: map<nat, Req>, q: seq<nat>, h: nat, r: Req)
    requires h in reqs && r.b == reqs[h].b
    ensures Owners(reqs[h := r], q) == Owners(reqs, q)
  {
    if q != [] {
      OwnersRetag(reqs, q[1..], h, r);
    }
  }

  lemma OwnersNext(reqs: map<nat, Req>, q: seq<nat>)
    requires |q| > 0 && q[0] in reqs
    ensures Owners(reqs, q) == [reqs[q[0]].b] + Owners(reqs[q[0] := reqs[q[0]].(stage := Released)], q[1..])
  {
    OwnersRetag(reqs, q[1..], q[0], reqs[q[0]].(stage := Released));
  }

  ghost function Release(bufs: map<nat, Buf>, bs: seq<nat>): map<nat, Buf> {
    if bs == [] then bufs
    else Release(if bs[0] in bufs then bufs[bs[0] := bufs[bs[0]].(busy := false)] else bufs, bs[1..])
  }

  /** Releasing makes exactly the listed buffers idle and touches no data. */
  lemma {:induction false} ReleaseExact(bufs: map<nat, Buf>, bs: seq<nat>, b: nat)
    requires b in bufs
    ensures b in Release(bufs, bs)
    ensures Release(bufs, bs)[b] == if b in bs then bufs[b].(busy := false) else bufs[b]
    decreases |bs|
  {
    if bs != [] {
      ReleaseExact(if bs[0] in bufs then bufs[bs[0] := bufs[bs[0]].(busy := false)] else bufs, bs[1..], b);
    }
  }

  /** Entries of free descriptors carry no meaning. */
  lemma UnusedCleared(s0: State, s: State, f: Flight)
    requires Inv(s0, f) && s == s0.(desc := s.desc) && |s.desc| == NUM
    requires forall i :: 0 <= i < NUM && !s.free[i] ==> s.desc[i] == s0.desc[i]
    ensures Inv(s, f)
  {
    forall h: nat | h in f.reqs
      ensures Formatted(s.desc, s.ops, s.bufs, h, f.reqs[h])
    {
      assert OwnChain(h, f.reqs[h], f.own);
      assert Formatted(s0.desc, s0.ops, s0.bufs, h, f.reqs[h]);
    }
    forall h: nat | h in f.reqs
      ensures Buffered(s.info, s.bufs, h, f.reqs[h])
    {
      assert Buffered(s0.info, s0.bufs, h, f.reqs[h]);
    }
    forall g: nat, h: nat
      ensures Apart(f.reqs, g, h)
    {
      assert Apart(f.reqs, g, h);
    }
  }

  lemma Submitted(s: State, f: Flight, b: nat, out: bool, h: nat, i1: nat, i2: nat) returns (l: Label, f': Flight)
    requires Inv(s, f) && b != 0 && b in s.bufs && !s.bufs[b].busy && forall i :: 0 <= i < |s.info| ==> s.info[i].b != b
    requires h < i1 < i2 < NUM && |s.free| == NUM && s.free[h] && s.free[i1] && s.free[i2]
    ensures l == Submit(b, out, h, i1, i2) && Enabled(s, l) && Next(s, l) == DoSubmit(s, b, out, h, i1, i2)
    ensures f' == Track(s, f, l) && Inv(DoSubmit(s, b, out, h, i1, i2), f')
  {
    l := Submit(b, out, h, i1, i2);
    SubmitInv(s, f, b, out, h, i1, i2);
    f' := Track(s, f, l);
  }
}
