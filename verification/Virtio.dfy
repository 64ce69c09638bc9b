/** The virtio split queue of kernel/virtio_disk.c: driver, device and interrupt as interleaved steps. */
module Virtio {
  import opened FiniteSets
  import opened Wrapping

  const NUM := 8
  const NONE := 0xff

  datatype Addr = Null | Op(op: nat) | Data(buf: nat) | Status(info: nat)
  datatype Desc = Desc(addr: Addr, more: bool, toBuf: bool, next: nat)
  datatype Cmd = Cmd(out: bool, sector: nat)
  datatype Info = Info(b: nat, status: nat)                 // b == 0: no buffer
  datatype Buf = Buf(block: nat, data: nat, busy: bool)     // busy is b->disk

  const NODESC := Desc(Null, false, false, 0)

  /** Memory shared by driver and device, the driver's own fields, the buffers, and the device's state. */
  datatype State = State(free: seq<bool>, desc: seq<Desc>, ops: seq<Cmd>, info: seq<Info>,
                         avail: seq<nat>, availIdx: nat, used: seq<nat>, usedIdx: nat, seen: nat,
                         bufs: map<nat, Buf>, taken: nat, work: set<nat>, disk: map<nat, nat>)

  datatype Stage = Pending | Working | Done | Released

  /**
   * One request: its buffer, its direction, the second and third descriptor of its chain, and
   * the bytes it moves (known from the start for a write, from completion on for a read).
   */
  datatype Req = Req(b: nat, out: bool, d1: nat, d2: nat, stage: Stage, val: nat)

  // ---------------------------------------------------------------- rings with 16-bit indices

  /** Slots `from` to `to` of a ring, both indices modulo 2^16, hold the queue `q`. */
  ghost predicate Ring(ring: seq<nat>, from: nat, to: nat, q: seq<nat>) {
    && |ring| == 8 && |q| <= 8 && from < 65536 && to == (from + |q|) % 65536
    && forall k :: 0 <= k < |q| ==> ring[Index(from, k)] == q[k]
  }

  function Index(from: nat, k: nat): (i: nat)
    ensures i < 8
  {
    (from + k) % 8
  }

  lemma IndexDiffers(from: nat, k: nat, n: nat)
    requires k < n < k + 8
    ensures Index(from, k) != Index(from, n)
  {
  }

  lemma IndexWraps(from: nat, k: nat)
    ensures Index((from + k) % 65536, 0) == Index(from, k)
    ensures Index((from + 1) % 65536, k) == Index(from, k + 1)
  {
    Wrapped(from + k, 0, 8, 8192, 65536);
    Wrapped(from + 1, k, 8, 8192, 65536);
  }

  /** Publishing one more entry overwrites no entry that is still unread. */
  lemma RingPush(ring: seq<nat>, from: nat, to: nat, q: seq<nat>, h: nat)
    requires Ring(ring, from, to, q) && |q| < 8
    ensures Ring(ring[to % 8 := h], from, (to + 1) % 65536, q + [h])
  {
    IndexWraps(from, |q|);
    assert to % 8 == Index(from, |q|);
    var q' := q + [h];
    forall k | 0 <= k < |q'|
      ensures ring[to % 8 := h][Index(from, k)] == q'[k]
    {
      if k < |q| {
        IndexDiffers(from, k, |q|);
      }
    }
  }

  /** The reader finds the oldest entry, and sees equal indices just when nothing is unread. */
  lemma RingPop(ring: seq<nat>, from: nat, to: nat, q: seq<nat>)
    requires Ring(ring, from, to, q)
    ensures from != to <==> |q| > 0
    ensures |q| > 0 ==> ring[from % 8] == q[0] && Ring(ring, (from + 1) % 65536, to, q[1..])
  {
    if |q| > 0 {
      assert ring[Index(from, 0)] == q[0];
      forall k | 0 <= k < |q[1..]|
        ensures ring[Index((from + 1) % 65536, k)] == q[1..][k]
      {
        IndexWraps(from, k);
        assert ring[Index(from, k + 1)] == q[k + 1];
      }
    }
  }

  // ---------------------------------------------------------------- descriptor chains

  /** Descriptor `i` belongs to the chain with head `own[i]`; the others are free. */
  ghost predicate Chains(free: seq<bool>, own: map<nat, nat>, reqs: map<nat, Req>) {
    && |free| == NUM
    && (forall i: nat :: i in own ==> i < NUM)
    && (forall i: nat :: i < NUM ==> free[i] == (i !in own))
    && (forall i: nat {:trigger own[i]} :: i in own ==> own[i] in reqs && InChain(i, own[i], reqs[own[i]]))
    && (forall h: nat {:trigger OwnChain(h, reqs[h], own)} :: h in reqs ==> OwnChain(h, reqs[h], own))
  }

  /** Three descriptors per request. */
  ghost predicate Counted(own: map<nat, nat>, reqs: map<nat, Req>) {
    |own.Keys| == 3 * |reqs.Keys|
  }

  predicate InChain(i: nat, h: nat, r: Req) {
    i == h || i == r.d1 || i == r.d2
  }

  ghost predicate OwnChain(h: nat, r: Req, own: map<nat, nat>) {
    && h != r.d1 && h != r.d2 && r.d1 != r.d2
    && h in own && own[h] == h && r.d1 in own && own[r.d1] == h && r.d2 in own && own[r.d2] == h
  }

  function Ids(n: nat): (s: set<nat>)
    ensures |s| == n && forall i: nat :: i in s <==> i < n
  {
    if n == 0 then {} else Ids(n - 1) + {n - 1}
  }

  /** At most NUM / 3 requests are in flight. */
  lemma FewRequests(free: seq<bool>, own: map<nat, nat>, reqs: map<nat, Req>)
    requires Chains(free, own, reqs) && Counted(own, reqs)
    ensures |reqs.Keys| <= NUM / 3
  {
    SubsetSize(own.Keys, Ids(NUM));
  }

  /** Different chains share no descriptor. */
  lemma ChainsDisjoint(free: seq<bool>, own: map<nat, nat>, reqs: map<nat, Req>, g: nat, h: nat, i: nat)
    requires Chains(free, own, reqs) && g in reqs && h in reqs && InChain(i, g, reqs[g]) && InChain(i, h, reqs[h])
    ensures g == h && i < NUM && !free[i]
  {
    assert OwnChain(g, reqs[g], own) && OwnChain(h, reqs[h], own);
  }

  lemma ChainsAdd(free: seq<bool>, own: map<nat, nat>, reqs: map<nat, Req>, h: nat, r: Req)
    requires Chains(free, own, reqs)
    requires h < NUM && r.d1 < NUM && r.d2 < NUM && h != r.d1 && h != r.d2 && r.d1 != r.d2
    requires free[h] && free[r.d1] && free[r.d2]
    ensures h !in reqs
    ensures Chains(free[h := false][r.d1 := false][r.d2 := false], own[h := h][r.d1 := h][r.d2 := h], reqs[h := r])
  {
    assert h in reqs ==> OwnChain(h, reqs[h], own);
    var own', reqs' := own[h := h][r.d1 := h][r.d2 := h], reqs[h := r];
    forall g: nat | g in reqs'
      ensures OwnChain(g, reqs'[g], own')
    {
      assert g != h ==> OwnChain(g, reqs[g], own);
    }
    forall i: nat | i in own'
      ensures own'[i] in reqs' && InChain(i, own'[i], reqs'[own'[i]])
    {
      assert !InChain(i, h, r) ==> own[i] in reqs && InChain(i, own[i], reqs[own[i]]);
    }
  }

  lemma MapGrows<T>(m: map<nat, T>, k: nat, v: T)
    requires k !in m
    ensures |m[k := v].Keys| == |m.Keys| + 1
  {
    assert m[k := v].Keys == m.Keys + {k};
  }

  lemma CountedAdd(own: map<nat, nat>, reqs: map<nat, Req>, h: nat, r: Req)
    requires Counted(own, reqs) && h !in own && r.d1 !in own && r.d2 !in own && h !in reqs
    requires h != r.d1 && h != r.d2 && r.d1 != r.d2
    ensures Counted(own[h := h][r.d1 := h][r.d2 := h], reqs[h := r])
  {
    MapGrows(own, h, h);
    MapGrows(own[h := h], r.d1, h);
    MapGrows(own[h := h][r.d1 := h], r.d2, h);
    MapGrows(reqs, h, r);
  }

  lemma ChainsDrop(free: seq<bool>, own: map<nat, nat>, reqs: map<nat, Req>, h: nat)
    requires Chains(free, own, reqs) && h in reqs
    ensures OwnChain(h, reqs[h], own) && h < NUM && reqs[h].d1 < NUM && reqs[h].d2 < NUM
    ensures Chains(free[h := true][reqs[h].d1 := true][reqs[h].d2 := true], own - {h, reqs[h].d1, reqs[h].d2},
      reqs - {h})
  {
    var r := reqs[h];
    var own', reqs' := own - {h, r.d1, r.d2}, reqs - {h};
    assert OwnChain(h, r, own);
    forall g: nat | g in reqs'
      ensures OwnChain(g, reqs'[g], own')
    {
      assert OwnChain(g, reqs[g], own);
    }
    forall i: nat | i in own'
      ensures own'[i] in reqs' && InChain(i, own'[i], reqs'[own'[i]])
    {
      assert own[i] in reqs && InChain(i, own[i], reqs[own[i]]);
    }
  }

  lemma CountedDrop(own: map<nat, nat>, reqs: map<nat, Req>, h: nat)
    requires Counted(own, reqs) && h in reqs && OwnChain(h, reqs[h], own)
    ensures Counted(own - {h, reqs[h].d1, reqs[h].d2}, reqs - {h})
  {
    var r := reqs[h];
    assert (own - {h, r.d1, r.d2}).Keys == own.Keys - {h} - {r.d1} - {r.d2};
    assert (reqs - {h}).Keys == reqs.Keys - {h};
  }

  lemma ChainsRetag(free: seq<bool>, own: map<nat, nat>, reqs: map<nat, Req>, h: nat, r: Req)
    requires Chains(free, own, reqs) && h in reqs && r.d1 == reqs[h].d1 && r.d2 == reqs[h].d2
    ensures Chains(free, own, reqs[h := r])
  {
    var reqs' := reqs[h := r];
    forall g: nat | g in reqs'
      ensures OwnChain(g, reqs'[g], own)
    {
      assert OwnChain(g, reqs[g], own);
    }
    forall i: nat | i in own
      ensures own[i] in reqs' && InChain(i, own[i], reqs'[own[i]])
    {
      assert own[i] in reqs && InChain(i, own[i], reqs[own[i]]);
    }
  }

  lemma CountedStage(own: map<nat, nat>, reqs: map<nat, Req>, h: nat, r: Req)
    requires Counted(own, reqs) && h in reqs
    ensures Counted(own, reqs[h := r])
  {
    assert reqs[h := r].Keys == reqs.Keys;
  }
}
