/** The pipe buffer of kernel/pipe.c: a FIFO of bytes over 512 slots and two counters that wrap at 2^32. */
module Pipe {
  import opened Wrapping

  const PIPESIZE := 512

  /** Slot of the `k`-th byte after counter value `n`. */
  function Place(n: nat, k: nat): (i: nat)
    ensures i < 512
  {
    (n + k) % 512
  }

  /** The bytes between the counters, in slot order, are the queue. */
  ghost predicate Queue(data: seq<nat>, nread: nat, nwrite: nat, q: seq<nat>) {
    && |data| == PIPESIZE && |q| <= PIPESIZE
    && nread < 0x1_0000_0000 && nwrite == (nread + |q|) % 0x1_0000_0000
    && forall k :: 0 <= k < |q| ==> data[Place(nread, k)] == q[k]
  }

  lemma PlaceDiffers(n: nat, j: nat, k: nat)
    requires j < k < j + 512
    ensures Place(n, j) != Place(n, k)
  {
  }

  lemma PlaceWraps(n: nat, k: nat)
    ensures Place((n + k) % 0x1_0000_0000, 0) == Place(n, k)
    ensures Place((n + 1) % 0x1_0000_0000, k) == Place(n, k + 1)
  {
    Wrapped(n + k, 0, 512, 0x80_0000, 0x1_0000_0000);
    Wrapped(n + 1, k, 512, 0x80_0000, 0x1_0000_0000);
  }

  /** The tests on the wrapped counters mean full and empty. */
  lemma FullEmpty(data: seq<nat>, nread: nat, nwrite: nat, q: seq<nat>)
    requires Queue(data, nread, nwrite, q)
    ensures nwrite == (nread + PIPESIZE) % 0x1_0000_0000 <==> |q| == PIPESIZE
    ensures nread == nwrite <==> q == []
  {
  }

  lemma Push(data: seq<nat>, nread: nat, nwrite: nat, q: seq<nat>, ch: nat)
    requires Queue(data, nread, nwrite, q) && |q| < PIPESIZE
    ensures Queue(data[nwrite % 512 := ch], nread, (nwrite + 1) % 0x1_0000_0000, q + [ch])
  {
    PlaceWraps(nread, |q|);
    var at := Place(nread, |q|);
    assert nwrite % 512 == at;
    Pushed(data, nread, q, ch, at);
    CounterNext(nread, |q|);
  }

  lemma Pushed(data: seq<nat>, nread: nat, q: seq<nat>, ch: nat, at: nat)
    requires |data| == 512 && |q| < 512 && at == Place(nread, |q|)
    requires forall k :: 0 <= k < |q| ==> data[Place(nread, k)] == q[k]
    ensures forall k :: 0 <= k < |q + [ch]| ==> data[at := ch][Place(nread, k)] == (q + [ch])[k]
  {
    forall k | 0 <= k < |q|
      ensures Place(nread, k) != at
    {
      PlaceDiffers(nread, k, |q|);
    }
  }

  lemma CounterNext(nread: nat, n: nat)
    ensures ((nread + n) % 0x1_0000_0000 + 1) % 0x1_0000_0000 == (nread + n + 1) % 0x1_0000_0000
  {
  }

  lemma Pop(data: seq<nat>, nread: nat, nwrite: nat, q: seq<nat>)
    requires Queue(data, nread, nwrite, q) && q != []
    ensures data[nread % 512] == q[0] && Queue(data, (nread + 1) % 0x1_0000_0000, nwrite, q[1..])
  {
    assert data[Place(nread, 0)] == q[0];
    Popped(data, nread, q);
    CounterLess(nread, |q|);
  }

  lemma Popped(data: seq<nat>, nread: nat, q: seq<nat>)
    requires |data| == 512 && q != [] && forall k :: 0 <= k < |q| ==> data[Place(nread, k)] == q[k]
    ensures forall k :: 0 <= k < |q[1..]| ==> data[Place((nread + 1) % 0x1_0000_0000, k)] == q[1..][k]
  {
    forall k | 0 <= k < |q[1..]|
      ensures data[Place((nread + 1) % 0x1_0000_0000, k)] == q[1..][k]
    {
      PlaceWraps(nread, k);
      assert data[Place(nread, k + 1)] == q[k + 1];
    }
  }

  lemma CounterLess(nread: nat, n: nat)
    requires n > 0
    ensures ((nread + 1) % 0x1_0000_0000 + (n - 1)) % 0x1_0000_0000 == (nread + n) % 0x1_0000_0000
  {
  }

  /** How a stretch of pipewrite or piperead between two sleeps ends. */
  datatype Ending = Returned(r: int) | Asleep(i: nat)

  class Channel {
    const data: array<nat>
    var nread: nat
    var nwrite: nat
    var readopen: bool
    var writeopen: bool
    ghost var sent: seq<nat>      // every byte ever written
    ghost var taken: seq<nat>     // every byte ever removed

    ghost predicate Valid()
      reads this, data
    {
      && data.Length == PIPESIZE && |taken| <= |sent|
      && taken == sent[..|taken|]
      && Queue(data[..], nread, nwrite, sent[|taken|..])
    }

    constructor ()
      ensures Valid() && fresh(data) && sent == [] && taken == [] && readopen && writeopen
    {
      data := new nat[512](_ => 0);
      nread, nwrite := 0, 0;
      readopen, writeopen := true, true;
      sent, taken := [], [];
    }

    /**
     * pipewrite from byte `i0` on, until it returns or sleeps. `src` is the readable part of the `n` bytes.
     * The bytes written are appended in order; it sleeps only when the pipe is full.
     */
    method Write(i0: nat, n: int, src: seq<nat>, killed: bool) returns (e: Ending)
      requires Valid() && i0 <= |src| <= (if n < 0 then 0 else n)
      modifies this`nwrite, this`sent, data
      ensures Valid()
      ensures e == Returned(-1) <==> i0 < n && (!readopen || killed)
      ensures e == Returned(-1) ==> sent == old(sent)
      ensures e.Returned? && e.r != -1 ==> e.r == |src| && sent == old(sent) + src[i0..]
      ensures e.Asleep? ==> i0 <= e.i <= |src| && e.i < n && sent == old(sent) + src[i0..e.i]
      ensures e.Asleep? ==> |sent| == |taken| + PIPESIZE
    {
      var i := i0;
      while i < n
        invariant i0 <= i <= |src| && Valid() && sent == old(sent) + src[i0..i]
        invariant i0 < i ==> readopen && !killed
      {
        if !readopen || killed {
          return Returned(-1);
        }
        FullEmpty(data[..], nread, nwrite, sent[|taken|..]);
        if nwrite == (nread + PIPESIZE) % 0x1_0000_0000 {
          return Asleep(i);
        }
        if i == |src| {
          break;
        }
        Push(data[..], nread, nwrite, sent[|taken|..], src[i]);
        data[nwrite % 512] := src[i];
        nwrite := (nwrite + 1) % 0x1_0000_0000;
        assert (sent + [src[i]])[|taken|..] == sent[|taken|..] + [src[i]];
        sent := sent + [src[i]];
        i := i + 1;
      }
      return Returned(i);
    }

    /** The oldest byte leaves the pipe. */
    method TakeByte() returns (ch: nat)
      requires Valid() && |taken| < |sent|
      modifies this`nread, this`taken
      ensures Valid() && ch == sent[old(|taken|)] && |taken| == old(|taken|) + 1
    {
      Pop(data[..], nread, nwrite, sent[|taken|..]);
      ch := data[nread % 512];
      nread := (nread + 1) % 0x1_0000_0000;
      assert sent[|taken|..][1..] == sent[|taken| + 1..];
      taken := taken + [sent[|taken|]];
    }

    /**
     * piperead until it returns or sleeps; `room` bytes of the destination are writable.
     * It delivers the oldest bytes in order. When the destination faults, one more byte is removed and lost.
     */
    method Read(n: int, room: nat, killed: bool) returns (e: Ending, out: seq<nat>)
      requires Valid()
      modifies this`nread, this`taken
      ensures Valid()
      ensures old(|taken|) == |sent| && writeopen ==>
        e == (if killed then Returned(-1) else Asleep(0)) && taken == old(taken)
      ensures !(old(|taken|) == |sent| && writeopen) ==>
        e == Returned(|out|) && Delivered(old(taken), sent, taken, n, room, out)
    {
      FullEmpty(data[..], nread, nwrite, sent[|taken|..]);
      out := [];
      if nread == nwrite && writeopen {
        if killed {
          return Returned(-1), [];
        }
        return Asleep(0), [];
      }
      var i := 0;
      while i < n
        invariant 0 <= i <= (if n < 0 then 0 else n) && i <= room && |out| == i && Valid()
        invariant |taken| == |old(taken)| + i && out == sent[|old(taken)|..|taken|]
      {
        FullEmpty(data[..], nread, nwrite, sent[|taken|..]);
        if nread == nwrite {
          break;
        }
        var ch := TakeByte();
        if i == room {
          break;
        }
        out := out + [ch];
        i := i + 1;
      }
      return Returned(i), out;
    }

    /** Closes one end; true when both are closed and the pipe is freed. */
    method Close(writable: bool) returns (freed: bool)
      modifies this`readopen, this`writeopen
      ensures readopen == (old(readopen) && writable) && writeopen == (old(writeopen) && !writable)
      ensures freed == (!readopen && !writeopen)
    {
      if writable {
        writeopen := false;
      } else {
        readopen := false;
      }
      freed := !readopen && !writeopen;
    }
  }

  function Least(a: nat, b: nat): nat {
    if a < b then a else b
  }

  /**
   * What a read of `n` bytes takes and delivers: the next bytes in order, one of them lost exactly when the destination
   * faults.
   */
  ghost predicate Delivered(was: seq<nat>, sent: seq<nat>, taken: seq<nat>, n: int, room: nat, out: seq<nat>) {
    var want := Least(if n < 0 then 0 else n, if |was| <= |sent| then |sent| - |was| else 0);
    && |out| == Least(want, room)
    && |was| + |out| <= |sent| && out == sent[|was|..|was| + |out|]
    && |taken| == |was| + |out| + (if room < want then 1 else 0)
  }

  /**
   * Closing the writing end frees the pipe just when the reading end is closed already.  Otherwise a reader gets
   * what is left and then end of file; it never sleeps.
   */
  method CloseThenRead(p: Channel, n: int, killed: bool) returns (freed: bool, out: seq<nat>, e: Ending)
    requires p.Valid() && |p.sent| - |p.taken| <= n
    modifies p
    ensures p.Valid() && p.sent == old(p.sent) && freed == !old(p.readopen)
    ensures freed ==> p.taken == old(p.taken)
    ensures !freed ==> out == p.sent[old(|p.taken|)..] && e == Returned(0) && p.taken == p.sent
  {
    freed := p.Close(true);
    if freed {
      return true, [], Returned(0);
    }
    e, out := p.Read(n, n, killed);
    ghost var sent := p.sent;
    var none;
    e, none := p.Read(n, n, killed);
    assert p.taken == p.sent[..|p.sent|] == sent;
  }

  /**
   * Closing the reading end frees the pipe just when the writing end is closed already.  Otherwise a writer with
   * bytes left gets an error and nothing is written.
   */
  method CloseThenWrite(p: Channel, i0: nat, n: int, src: seq<nat>, killed: bool) returns (freed: bool, e: Ending)
    requires p.Valid() && i0 <= |src| <= n && i0 < n
    modifies p, p.data
    ensures p.Valid() && p.sent == old(p.sent) && p.taken == old(p.taken) && freed == !old(p.writeopen)
    ensures !freed ==> e == Returned(-1)
  {
    freed := p.Close(false);
    if freed {
      return true, Returned(0);
    }
    e := p.Write(i0, n, src, killed);
  }
}
