/** Files across a crash: the log's histories carry the operations of the block and inode layer. */
module FsCrash {
  import opened FsDisk
  import opened FsJournal
  import LogMachine
  import opened LogSafety
  import opened LogRuns

  type Encoding = (Fs, nat) -> LogMachine.Block

  /** Any way to write the parts of a file system of `size` blocks into blocks and to tell them apart there. */
  ghost predicate Encodes(lay: Layout, size: nat, enc: Encoding) {
    forall f: Fs, g: Fs, c: nat {:trigger enc(f, c), enc(g, c)} ::
      |f.used| == size && |f.data| == size && |g.used| == size && |g.data| == size ==>
        (enc(f, c) == enc(g, c) <==> SamePart(lay, f, g, c))
  }

  /** The home blocks that hold `f`. */
  ghost function HomeOf(enc: Encoding, lay: Layout, f: Fs): LogMachine.Home {
    map c: nat | lay.inodestart <= c < |f.data| :: enc(f, c)
  }

  /** Same bitmap, inodes and data blocks. */
  ghost predicate SameFiles(lay: Layout, f: Fs, g: Fs)
    requires lay.meta <= |f.data| == |g.data|
  {
    f.used == g.used && f.inodes == g.inodes && f.data[lay.meta..] == g.data[lay.meta..]
  }

  /** The home blocks determine the bitmap, the inodes and the data blocks. */
  lemma HomeExact(enc: Encoding, lay: Layout, f: Fs, g: Fs)
    requires Fits(lay, f) && Fits(lay, g) && |f.data| == |g.data| && Encodes(lay, |f.data|, enc)
    ensures HomeOf(enc, lay, f) == HomeOf(enc, lay, g) <==> SameFiles(lay, f, g)
  {
    var hf, hg := HomeOf(enc, lay, f), HomeOf(enc, lay, g);
    if hf == hg {
      forall c: nat | lay.inodestart <= c < |f.data| ensures SamePart(lay, f, g, c) {
        assert hf[c] == hg[c];
      }
      PartsTell(lay, f, g);
    }
    if SameFiles(lay, f, g) {
      forall c: nat | lay.inodestart <= c < |f.data| ensures enc(f, c) == enc(g, c) {
        PartsSame(lay, f, g, c);
      }
      assert hf == hg;
    }
  }

  lemma PartsSame(lay: Layout, f: Fs, g: Fs, c: nat)
    requires lay.meta <= |f.data| == |g.data| && SameFiles(lay, f, g)
    ensures SamePart(lay, f, g, c)
  {
    if lay.meta <= c < |f.data| {
      assert f.data[lay.meta..][c - lay.meta] == g.data[lay.meta..][c - lay.meta];
    }
  }

  lemma PartsTell(lay: Layout, f: Fs, g: Fs)
    requires Fits(lay, f) && Fits(lay, g) && |f.data| == |g.data|
    requires forall c: nat :: lay.inodestart <= c < |f.data| ==> SamePart(lay, f, g, c)
    ensures SameFiles(lay, f, g)
  {
    assert lay.bmapstart <= BitmapBlock(lay, |f.used| - 1);
    forall b: nat | b < |f.used| ensures f.used[b] == g.used[b] {
      assert b / BPB <= (|f.used| - 1) / BPB;
      assert SamePart(lay, f, g, BitmapBlock(lay, b));
    }
    forall i: nat | i in f.inodes || i in g.inodes ensures SameInode(f, g, i) {
      assert SamePart(lay, f, g, InodeBlock(lay, i));
    }
    forall c: nat | lay.meta <= c < |f.data| ensures f.data[c] == g.data[c] {
      assert SamePart(lay, f, g, c);
    }
  }

  // ----- operations as events of the log

  /** The writes among the events are `ws`, in order. */
  ghost predicate Carries(enc: Encoding, es: seq<Event>, ws: seq<Write>) {
    if es == [] then ws == []
    else
      var e, rest := es[|es| - 1], es[..|es| - 1];
      if e.Wrote? then
        && ws != [] && Carries(enc, rest, ws[..|ws| - 1])
        && e.b == ws[|ws| - 1].block && e.v == enc(ws[|ws| - 1].image, e.b)
      else Carries(enc, rest, ws)
  }

  /** One operation, or several that overlap: some operation is open until the last event. */
  ghost predicate Group(es: seq<Event>) {
    && es != [] && Open(es) == {}
    && forall n {:trigger es[..n]} :: 0 < n < |es| ==> Open(es[..n]) != {}
  }

  ghost predicate Groups(enc: Encoding, ess: seq<seq<Event>>, ops: seq<Op>) {
    && |ess| == |ops|
    && forall k :: 0 <= k < |ops| ==> Group(ess[k]) && Carries(enc, ess[k], ops[k].writes)
  }

  function Flat(ess: seq<seq<Event>>): seq<Event> {
    if ess == [] then [] else Flat(ess[..|ess| - 1]) + ess[|ess| - 1]
  }

  lemma {:induction false} ApplyAppend(h: LogMachine.Home, s: seq<Event>, t: seq<Event>)
    ensures Apply(h, s + t) == Apply(Apply(h, s), t)
    decreases |t|
  {
    if t == [] {
      assert s + t == s;
    } else {
      var u := t[..|t| - 1];
      assert (s + t)[..|s + t| - 1] == s + u;
      ApplyAppend(h, s, u);
    }
  }

  lemma HomeStep(enc: Encoding, lay: Layout, f: Fs, f': Fs, c: nat)
    requires Encodes(lay, |f.data|, enc) && |f.used| == |f.data| && Changes(lay, f, f', c)
    ensures HomeOf(enc, lay, f') == HomeOf(enc, lay, f)[c := enc(f', c)]
  {
    forall d: nat | d != c && lay.inodestart <= d < |f.data| ensures enc(f', d) == enc(f, d) {
      assert SamePart(lay, f, f', d);
    }
  }

  /** The events of a group take the home blocks of the state it starts in to those of the state it ends in. */
  lemma {:induction false} ApplyGroup(enc: Encoding, lay: Layout, f: Fs, es: seq<Event>, ws: seq<Write>)
    requires Encodes(lay, |f.data|, enc) && |f.used| == |f.data| && Chain(lay, f, ws) && Carries(enc, es, ws)
    ensures |Last(f, ws).data| == |Last(f, ws).used| == |f.data|
    ensures Apply(HomeOf(enc, lay, f), es) == HomeOf(enc, lay, Last(f, ws))
    decreases |es|
  {
    if es != [] {
      var rest, e := es[..|es| - 1], es[|es| - 1];
      if e.Wrote? {
        var u, w := ws[..|ws| - 1], ws[|ws| - 1];
        ApplyGroup(enc, lay, f, rest, u);
        HomeStep(enc, lay, Last(f, u), w.image, w.block);
      } else {
        ApplyGroup(enc, lay, f, rest, ws);
      }
    }
  }

  /** Replaying whole groups yields the home blocks of the state they lead to. */
  lemma {:induction false} ApplyFlat(enc: Encoding, lay: Layout, ess: seq<seq<Event>>, f: Fs, stale: set<nat>,
                                     ops: seq<Op>)
    requires Groups(enc, ess, ops) && SoundHistory(lay, f, stale, ops)
    requires Encodes(lay, |f.data|, enc) && |f.used| == |f.data|
    ensures |StateAfter(f, ops).data| == |StateAfter(f, ops).used| == |f.data|
    ensures Apply(HomeOf(enc, lay, f), Flat(ess)) == HomeOf(enc, lay, StateAfter(f, ops))
    decreases |ops|
  {
    if ops != [] {
      var n := |ops| - 1;
      ApplyFlat(enc, lay, ess[..n], f, stale, ops[..n]);
      ApplyGroup(enc, lay, StateAfter(f, ops[..n]), ess[n], ops[n].writes);
      ApplyAppend(HomeOf(enc, lay, f), Flat(ess[..n]), ess[n]);
    }
  }

  // ----- a part of the history without open operations ends between groups

  lemma {:induction false} OpenAppend(s: seq<Event>, t: seq<Event>)
    requires Open(s) == {}
    ensures Open(s + t) == Open(t)
    decreases |t|
  {
    if t == [] {
      assert s + t == s;
    } else {
      assert (s + t)[..|s + t| - 1] == s + t[..|t| - 1];
      OpenAppend(s, t[..|t| - 1]);
    }
  }

  lemma {:induction false} FlatClosed(ess: seq<seq<Event>>)
    requires forall k :: 0 <= k < |ess| ==> Group(ess[k])
    ensures Open(Flat(ess)) == {} && |Flat(ess)| >= |ess|
    decreases |ess|
  {
    if ess != [] {
      FlatClosed(ess[..|ess| - 1]);
      OpenAppend(Flat(ess[..|ess| - 1]), ess[|ess| - 1]);
    }
  }

  lemma {:induction false} Boundary(ess: seq<seq<Event>>, p: seq<Event>) returns (k: nat)
    requires (forall k :: 0 <= k < |ess| ==> Group(ess[k])) && p <= Flat(ess) && Open(p) == {}
    ensures k <= |ess| && p == Flat(ess[..k])
    decreases |ess|
  {
    if ess == [] {
      k := 0;
    } else {
      var n := |ess| - 1;
      var t, es := Flat(ess[..n]), ess[n];
      if |p| <= |t| {
        assert p == t[..|p|];
        k := Boundary(ess[..n], p);
        assert ess[..n][..k] == ess[..k];
      } else {
        var m := |p| - |t|;
        assert p == t + es[..m];
        FlatClosed(ess[..n]);
        OpenAppend(t, es[..m]);
        assert m == |es|;
        k := |ess|;
        assert ess[..k] == ess && es[..m] == es;
      }
    }
  }

  /** One operation by itself is a group. */
  lemma SerialGroup(enc: Encoding, a: nat, ws: seq<Write>) returns (es: seq<Event>)
    ensures Group(es) && Carries(enc, es, ws)
  {
    var t := SerialOpen(enc, a, ws);
    es := t + [Ended(a)];
    assert es[..|es| - 1] == t;
    forall n | 0 < n < |es| ensures Open(es[..n]) != {} {
      assert es[..n] == t[..n];
    }
  }

  lemma {:induction false} SerialOpen(enc: Encoding, a: nat, ws: seq<Write>) returns (t: seq<Event>)
    ensures t != [] && Carries(enc, t, ws)
    ensures Open(t) == {a} && forall n {:trigger t[..n]} :: 0 < n <= |t| ==> Open(t[..n]) == {a}
    decreases |ws|
  {
    if ws == [] {
      t := [Began(a)];
      assert t[..0] == [] && t[..1] == t;
    } else {
      var w := ws[|ws| - 1];
      var u := SerialOpen(enc, a, ws[..|ws| - 1]);
      t := u + [Wrote(a, w.block, enc(w.image, w.block))];
      assert t[..|t| - 1] == u;
      forall n | 0 < n <= |t| ensures Open(t[..n]) == {a} {
        if n == |t| {
          assert t[..n] == t;
        } else {
          assert t[..n] == u[..n];
        }
      }
    }
  }

  // ----- what is committed without having been logged

  /** `v` holds data bytes of block `c`. */
  ghost predicate DataBytes(enc: Encoding, size: nat, c: nat, v: LogMachine.Block) {
    exists g: Fs :: |g.used| == size && |g.data| == size && c < size && IsBlock(g.data[c]) && v == enc(g, c)
  }

  /** At a commit, logged blocks that were changed since are among those the operations say they left so. */
  ghost predicate Tidy(enc: Encoding, size: nat, ess: seq<seq<Event>>, ops: seq<Op>, s: LogMachine.State, h: History) {
    forall c, k {:trigger c in h.loose, Flat(ess[..k])} ::
      c in h.loose && c in s.lh && 0 <= k <= |ess| == |ops| && h.trace == Flat(ess[..k]) ==>
        c in StaleAfter({}, ops[..k]) && DataBytes(enc, size, c, h.loose[c])
  }

  ghost predicate AllTidy(enc: Encoding, size: nat, ess: seq<seq<Event>>, ops: seq<Op>, s: LogMachine.State, h: History,
                          ls: seq<LogMachine.Label>)
    requires Legal(s, ls) && h.durable <= |h.trace|
    decreases |ls|
  {
    ls != [] ==>
      && (ls[0].CommitHead? ==> Tidy(enc, size, ess, ops, s, h))
      && AllTidy(enc, size, ess, ops, LogMachine.Next(s, ls[0]), Record(h, s, ls[0]), ls[1..])
  }

  /** Every write since the last commit is of a block in the log. */
  ghost predicate InLog(s: LogMachine.State, h: History) {
    forall i :: h.durable <= i < |h.trace| && h.trace[i].Wrote? ==>
      (s.phase.Running? || s.phase.WritingLog?) && h.trace[i].b in s.lh
  }

  lemma InLogStep(s: LogMachine.State, h: History, l: LogMachine.Label)
    requires InLog(s, h) && LogMachine.Enabled(s, l) && h.durable <= |h.trace| && InPhase(s)
    requires l.LogWrite? ==> s.phase.Running?
    ensures InLog(LogMachine.Next(s, l), Record(h, s, l))
  {
  }

  /** Blocks with durable bytes that were never logged are left so by the operations up to the last commit. */
  ghost predicate Spoils(enc: Encoding, size: nat, stale: set<nat>, spoiled: LogMachine.Home) {
    forall c :: c in spoiled ==> c in stale && DataBytes(enc, size, c, spoiled[c])
  }

  lemma {:induction false} WriteShows(enc: Encoding, es: seq<Event>, ws: seq<Write>, c: nat) returns (i: nat)
    requires Carries(enc, es, ws) && c in Blocks(ws)
    ensures i < |es| && es[i].Wrote? && es[i].b == c
    decreases |es|
  {
    var rest, e := es[..|es| - 1], es[|es| - 1];
    if e.Wrote? && e.b == c {
      i := |es| - 1;
    } else if e.Wrote? {
      i := WriteShows(enc, rest, ws[..|ws| - 1], c);
    } else {
      i := WriteShows(enc, rest, ws, c);
    }
  }

  ghost predicate CarriedAt(ops: seq<Op>, m: nat)
    requires 0 < m <= |ops|
  {
    Carried(StaleAfter({}, ops[..m - 1]), ops[m - 1])
  }

  ghost predicate AllCarried(ops: seq<Op>) {
    forall m :: 0 < m <= |ops| ==> CarriedAt(ops, m)
  }

  lemma HistoryCarried(lay: Layout, f: Fs, ops: seq<Op>)
    requires SoundHistory(lay, f, {}, ops)
    ensures AllCarried(ops)
  {
    forall m | 0 < m <= |ops| ensures CarriedAt(ops, m) {
      SoundBefore(lay, f, {}, ops, m);
      assert ops[..m][..m - 1] == ops[..m - 1];
    }
  }

  /** No event from `n` on writes block `c`. */
  ghost predicate Untouched(t: seq<Event>, n: nat, c: nat) {
    forall i :: n <= i < |t| && t[i].Wrote? ==> t[i].b != c
  }

  lemma Touched(enc: Encoding, a: seq<Event>, es: seq<Event>, ws: seq<Write>, n: nat, c: nat)
    requires Carries(enc, es, ws) && c in Blocks(ws) && n <= |a|
    ensures !Untouched(a + es, n, c)
  {
    var i := WriteShows(enc, es, ws, c);
    assert (a + es)[|a| + i] == es[i];
  }

  lemma StaysOnce(enc: Encoding, a: seq<Event>, es: seq<Event>, op: Op, stale: set<nat>, n: nat, c: nat)
    requires Carries(enc, es, op.writes) && Carried(stale, op) && c in stale && n <= |a| && Untouched(a + es, n, c)
    ensures c in op.stale
  {
    if c in Blocks(op.writes) {
      Touched(enc, a, es, op.writes, n, c);
    }
  }

  lemma UntouchedBefore(a: seq<Event>, es: seq<Event>, n: nat, c: nat)
    requires Untouched(a + es, n, c)
    ensures Untouched(a, n, c)
  {
    assert forall i :: 0 <= i < |a| ==> (a + es)[i] == a[i];
  }

  /** A block that no event after group `k` writes is still left as it was after group `m`. */
  lemma {:induction false} StaysStale(enc: Encoding, ess: seq<seq<Event>>, ops: seq<Op>, k: nat, m: nat, c: nat)
    requires Groups(enc, ess, ops) && AllCarried(ops) && k <= m <= |ops| && c in StaleAfter({}, ops[..k])
    requires Untouched(Flat(ess[..m]), |Flat(ess[..k])|, c)
    ensures c in StaleAfter({}, ops[..m])
    decreases m
  {
    if k < m {
      var a, n := Flat(ess[..m - 1]), |Flat(ess[..k])|;
      assert ess[..m][..m - 1] == ess[..m - 1];
      FlatGrows(ess, k, m - 1);
      UntouchedBefore(a, ess[m - 1], n, c);
      StaysStale(enc, ess, ops, k, m - 1, c);
      assert CarriedAt(ops, m);
      StaysOnce(enc, a, ess[m - 1], ops[m - 1], StaleAfter({}, ops[..m - 1]), n, c);
      assert ops[..m][m - 1] == ops[m - 1];
    }
  }

  lemma {:induction false} FlatGrows(ess: seq<seq<Event>>, k: nat, m: nat)
    requires k <= m <= |ess|
    ensures Flat(ess[..k]) <= Flat(ess[..m])
    decreases m
  {
    if k < m {
      assert ess[..m][..m - 1] == ess[..m - 1];
      FlatGrows(ess, k, m - 1);
    }
  }

  lemma FlatLonger(ess: seq<seq<Event>>, k: nat, m: nat)
    requires k < m <= |ess| && Group(ess[m - 1])
    ensures |Flat(ess[..k])| < |Flat(ess[..m])|
  {
    FlatGrows(ess, k, m - 1);
    assert ess[..m][..m - 1] == ess[..m - 1];
  }

  /** One commit: what it spoils, and what earlier ones have, is left so by the operations up to it. */
  lemma CommitSpoils(enc: Encoding, size: nat, ess: seq<seq<Event>>, ops: seq<Op>, s: LogMachine.State, h: History,
                     k: nat)
    returns (m: nat)
    requires Groups(enc, ess, ops) && AllCarried(ops) && h.durable <= |h.trace|
    requires k <= |ops| && h.trace[..h.durable] == Flat(ess[..k])
    requires Spoils(enc, size, StaleAfter({}, ops[..k]), h.spoiled)
    requires InLog(s, h) && Tidy(enc, size, ess, ops, s, h) && h.trace <= Flat(ess) && Open(h.trace) == {}
    ensures m <= |ops| && h.trace == Flat(ess[..m])
    ensures Spoils(enc, size, StaleAfter({}, ops[..m]), Chosen(h.loose, h.spoiled, s.lh))
  {
    m := Boundary(ess, h.trace);
    if m < k {
      FlatLonger(ess, m, k);
    }
    forall c | c in Chosen(h.loose, h.spoiled, s.lh)
      ensures c in StaleAfter({}, ops[..m]) && DataBytes(enc, size, c, Chosen(h.loose, h.spoiled, s.lh)[c])
    {
      if c !in s.lh {
        StaysStale(enc, ess, ops, k, m, c);
      }
    }
  }

  /** The durable part ends between groups, and spoiled blocks are left so by the groups before. */
  ghost predicate Left(enc: Encoding, size: nat, ess: seq<seq<Event>>, ops: seq<Op>, h: History, k: nat) {
    && h.durable <= |h.trace| && k <= |ess| == |ops| && h.trace[..h.durable] == Flat(ess[..k])
    && Spoils(enc, size, StaleAfter({}, ops[..k]), h.spoiled)
  }

  lemma NoneOpen(s: LogMachine.State, h: History)
    requires Inv(s, h) && LogMachine.Enabled(s, LogMachine.CommitHead)
    ensures Open(h.trace) == {}
  {
    StepKnown(s, h, LogMachine.CommitHead);
  }

  lemma OtherStep(s: LogMachine.State, h: History, l: LogMachine.Label)
    requires h.durable <= |h.trace| && LogMachine.Enabled(s, l) && !l.CommitHead?
    ensures var h' := Record(h, s, l);
      h'.durable == h.durable && h'.trace[..h.durable] == h.trace[..h.durable] && h'.spoiled == h.spoiled
  {
  }

  lemma SpoilsStep(enc: Encoding, size: nat, ess: seq<seq<Event>>, ops: seq<Op>, s: LogMachine.State, h: History,
                   l: LogMachine.Label, k: nat)
    returns (m: nat)
    requires Groups(enc, ess, ops) && AllCarried(ops) && Inv(s, h) && InLog(s, h) && LogMachine.Enabled(s, l)
    requires Left(enc, size, ess, ops, h, k)
    requires l.CommitHead? ==> Tidy(enc, size, ess, ops, s, h) && h.trace <= Flat(ess)
    ensures Left(enc, size, ess, ops, Record(h, s, l), m)
  {
    m := k;
    if l.CommitHead? {
      NoneOpen(s, h);
      m := CommitSpoils(enc, size, ess, ops, s, h, k);
      assert h.trace[..|h.trace|] == h.trace;
    } else {
      OtherStep(s, h, l);
    }
  }

  /** What a commit makes durable stays so. */
  lemma CommitPrefix(s: LogMachine.State, h: History, ls: seq<LogMachine.Label>, t: seq<Event>)
    requires h.durable <= |h.trace| && Legal(s, ls) && ls != [] && ls[0].CommitHead?
    requires var h' := Story(h, s, ls); h'.trace[..h'.durable] <= t
    ensures h.trace <= t
  {
    var s', h' := LogMachine.Next(s, ls[0]), Record(h, s, ls[0]);
    DurableGrows(s', h', ls[1..]);
    assert h'.trace[..h'.durable] == h.trace;
  }

  /** Over any run. */
  lemma {:induction false} SpoilsRun(enc: Encoding, size: nat, ess: seq<seq<Event>>, ops: seq<Op>,
                                     s: LogMachine.State, h: History, ls: seq<LogMachine.Label>, k: nat)
    returns (m: nat)
    requires Groups(enc, ess, ops) && AllCarried(ops) && Left(enc, size, ess, ops, h, k)
    requires Inv(s, h) && InLog(s, h) && Legal(s, ls) && AllTidy(enc, size, ess, ops, s, h, ls)
    requires var h' := Story(h, s, ls); h'.trace[..h'.durable] <= Flat(ess)
    ensures Left(enc, size, ess, ops, Story(h, s, ls), m)
    decreases |ls|
  {
    m := k;
    if ls != [] {
      var l, s', h', rest := ls[0], LogMachine.Next(s, ls[0]), Record(h, s, ls[0]), ls[1..];
      if l.CommitHead? {
        CommitPrefix(s, h, ls, Flat(ess));
      }
      var n := SpoilsStep(enc, size, ess, ops, s, h, l, k);
      InvOn(s, h, l);
      m := SpoilsRun(enc, size, ess, ops, s', h', rest, n);
    }
  }

  lemma InvOn(s: LogMachine.State, h: History, l: LogMachine.Label)
    requires Inv(s, h) && InLog(s, h) && LogMachine.Enabled(s, l)
    ensures Inv(LogMachine.Next(s, l), Record(h, s, l)) && InLog(LogMachine.Next(s, l), Record(h, s, l))
  {
    StepKnown(s, h, l);
    InvStep(s, h, l);
    InLogStep(s, h, l);
  }

  // ----- the theorem

  /** The file system held by the home blocks of `f` with other data bytes in some blocks. */
  ghost function Spoiled(enc: Encoding, f: Fs, spoiled: LogMachine.Home): Fs
    requires forall c: nat :: c in spoiled ==> DataBytes(enc, |f.data|, c, spoiled[c])
  {
    f.(data := seq(|f.data|, c requires 0 <= c < |f.data| =>
      if c in spoiled then BytesOf(enc, |f.data|, c, spoiled[c]) else f.data[c]))
  }

  ghost function BytesOf(enc: Encoding, size: nat, c: nat, v: LogMachine.Block): (b: Block)
    requires DataBytes(enc, size, c, v)
    ensures IsBlock(b)
  {
    var g: Fs :| |g.used| == size && |g.data| == size && c < size && IsBlock(g.data[c]) && v == enc(g, c);
    g.data[c]
  }

  lemma SpoiledBlock(enc: Encoding, lay: Layout, f: Fs, spoiled: LogMachine.Home, c: nat)
    requires Encodes(lay, |f.data|, enc) && |f.used| == |f.data| && lay.bmapstart <= lay.meta && c < |f.data|
    requires forall c: nat :: c in spoiled ==> DataBytes(enc, |f.data|, c, spoiled[c])
    requires c in spoiled ==> lay.meta <= c
    ensures enc(Spoiled(enc, f, spoiled), c) == if c in spoiled then spoiled[c] else enc(f, c)
  {
    var g := Spoiled(enc, f, spoiled);
    if c in spoiled {
      var b: Fs :| |b.used| == |f.data| && |b.data| == |f.data| && c < |f.data| && IsBlock(b.data[c])
        && spoiled[c] == enc(b, c) && BytesOf(enc, |f.data|, c, spoiled[c]) == b.data[c];
      assert SamePart(lay, g, b, c);
    } else {
      assert SamePart(lay, g, f, c);
    }
  }

  lemma SpoiledHome(enc: Encoding, lay: Layout, f: Fs, spoiled: LogMachine.Home)
    requires Encodes(lay, |f.data|, enc) && |f.used| == |f.data| && lay.bmapstart <= lay.meta
    requires forall c: nat :: c in spoiled ==> lay.meta <= c && DataBytes(enc, |f.data|, c, spoiled[c])
    ensures HomeOf(enc, lay, Spoiled(enc, f, spoiled)) == Overlay(HomeOf(enc, lay, f), spoiled)
  {
    var g := Spoiled(enc, f, spoiled);
    forall c: nat | lay.inodestart <= c < |f.data|
      ensures enc(g, c) == if c in spoiled then spoiled[c] else enc(f, c)
    {
      SpoiledBlock(enc, lay, f, spoiled, c);
    }
  }

  lemma SpoiledSound(enc: Encoding, lay: Layout, f: Fs, stale: set<nat>, spoiled: LogMachine.Home)
    requires Sound(lay, f) && Spoils(enc, |f.data|, stale, spoiled) && forall c :: c in stale ==> Loose(lay, f, c)
    ensures Sound(lay, Spoiled(enc, f, spoiled))
  {
    LooseSound(lay, f, Spoiled(enc, f, spoiled));
  }

  /** `g` is `f` with other bytes in some of the blocks in `stale`, none of which holds pointers. */
  ghost predicate OnlyLoose(lay: Layout, f: Fs, g: Fs, stale: set<nat>) {
    && g.used == f.used && g.inodes == f.inodes && |g.data| == |f.data|
    && forall c :: 0 <= c < |g.data| && g.data[c] != f.data[c] ==> c in stale && Loose(lay, f, c)
  }

  /**
   * Let any run of the log, with crashes anywhere, carry out operations of the block and inode layer, which may
   * overlap in groups; the last ones may be unfinished.  A crash then leaves a sound file system: no block has two
   * owners, a block is marked in use just when it has one, and no file has a hole.  It is a state between two groups,
   * except for data bytes in blocks that the operations left changed and not logged.
   */
  lemma FilesSurvive(enc: Encoding, lay: Layout, f: Fs, ess: seq<seq<Event>>, ops: seq<Op>, d: LogMachine.Disk,
                     agents: nat, ls: seq<LogMachine.Label>)
    returns (k: nat, g: Fs)
    requires Groups(enc, ess, ops) && SoundHistory(lay, f, {}, ops)
    requires |f.used| == |f.data| && Encodes(lay, |f.data|, enc)
    requires RecoversTo(d, HomeOf(enc, lay, f)) && Legal(LogMachine.Start(d, agents), ls)
    requires AllTidy(enc, |f.data|, ess, ops, LogMachine.Start(d, agents), Fresh(HomeOf(enc, lay, f)), ls)
    requires var h := Story(Fresh(HomeOf(enc, lay, f)), LogMachine.Start(d, agents), ls);
      h.trace[..h.durable] <= Flat(ess)
    ensures var h := Story(Fresh(HomeOf(enc, lay, f)), LogMachine.Start(d, agents), ls);
      k <= |ops| && h.trace[..h.durable] == Flat(ess[..k])
    ensures Sound(lay, g) && RecoversTo(Exec(LogMachine.Start(d, agents), ls).disk, HomeOf(enc, lay, g))
    ensures OnlyLoose(lay, StateAfter(f, ops[..k]), g, StaleAfter({}, ops[..k]))
  {
    var s0, h0 := LogMachine.Start(d, agents), Fresh(HomeOf(enc, lay, f));
    var s, h := Exec(s0, ls), Story(h0, s0, ls);
    InvStart(d, agents, HomeOf(enc, lay, f));
    HistoryCarried(lay, f, ops);
    assert h0.trace[..h0.durable] == Flat(ess[..0]);
    k := SpoilsRun(enc, |f.data|, ess, ops, s0, h0, ls, 0);
    InvRun(s0, h0, ls);
    BaseStays(h0, s0, ls);
    g := LeftSound(enc, lay, f, ess, ops, s, h, k);
  }

  /** The file system that the durable part and the spoiled blocks make up. */
  lemma LeftSound(enc: Encoding, lay: Layout, f: Fs, ess: seq<seq<Event>>, ops: seq<Op>, s: LogMachine.State,
                  h: History, k: nat)
    returns (g: Fs)
    requires Groups(enc, ess, ops) && SoundHistory(lay, f, {}, ops)
    requires |f.used| == |f.data| && Encodes(lay, |f.data|, enc)
    requires Left(enc, |f.data|, ess, ops, h, k) && h.base == HomeOf(enc, lay, f) && RecoversTo(s.disk, Kept(h))
    ensures Sound(lay, g) && RecoversTo(s.disk, HomeOf(enc, lay, g))
    ensures OnlyLoose(lay, StateAfter(f, ops[..k]), g, StaleAfter({}, ops[..k]))
  {
    SoundBefore(lay, f, {}, ops, k);
    ApplyFlat(enc, lay, ess[..k], f, {}, ops[..k]);
    var f' := StateAfter(f, ops[..k]);
    assert Durable(h) == HomeOf(enc, lay, f');
    g := Spoiled(enc, f', h.spoiled);
    SpoiledSound(enc, lay, f', StaleAfter({}, ops[..k]), h.spoiled);
    assert lay.bmapstart <= BitmapBlock(lay, |f'.used| - 1);
    SpoiledHome(enc, lay, f', h.spoiled);
  }

  lemma {:induction false} BaseStays(h: History, s: LogMachine.State, ls: seq<LogMachine.Label>)
    requires Legal(s, ls) && h.durable <= |h.trace|
    ensures Story(h, s, ls).base == h.base
    decreases |ls|
  {
    if ls != [] {
      BaseStays(Record(h, s, ls[0]), LogMachine.Next(s, ls[0]), ls[1..]);
    }
  }

  /** A file system is what the recovered home blocks hold just when it agrees with one that is. */
  lemma ReadBack(enc: Encoding, lay: Layout, disk: LogMachine.Disk, f: Fs, g: Fs)
    requires Fits(lay, f) && Fits(lay, g) && |f.data| == |g.data| && Encodes(lay, |f.data|, enc)
    requires RecoversTo(disk, HomeOf(enc, lay, f))
    ensures RecoversTo(disk, HomeOf(enc, lay, g)) <==> SameFiles(lay, f, g)
  {
    if RecoversTo(disk, HomeOf(enc, lay, g)) {
      RecoveredUnique(disk, HomeOf(enc, lay, f), HomeOf(enc, lay, g));
    }
    HomeExact(enc, lay, f, g);
  }

  // ----- an encoding

  function InodeWords(f: Fs, i: nat): seq<nat> {
    if i in f.inodes then [1, f.inodes[i].size, |f.inodes[i].addrs|] + f.inodes[i].addrs else [0]
  }

  /** Inodes `i` to `hi`. */
  function Pack(f: Fs, i: nat, hi: nat): seq<nat>
    decreases hi - i
  {
    if i >= hi then [] else InodeWords(f, i) + Pack(f, i + 1, hi)
  }

  lemma WordsTell(f: Fs, g: Fs, i: nat, a: seq<nat>, b: seq<nat>)
    ensures InodeWords(f, i) + a == InodeWords(g, i) + b <==> SameInode(f, g, i) && a == b
  {
    var u, v := InodeWords(f, i), InodeWords(g, i);
    if u + a == v + b {
      assert (u + a)[0] == u[0] && (v + b)[0] == v[0];
      if i in f.inodes {
        assert (u + a)[1] == u[1] && (v + b)[1] == v[1];
        assert (u + a)[2] == u[2] && (v + b)[2] == v[2];
        assert u[3..] == f.inodes[i].addrs && v[3..] == g.inodes[i].addrs;
      }
      assert u == (u + a)[..|u|] && v == (v + b)[..|v|];
      assert a == (u + a)[|u|..] && b == (v + b)[|v|..];
    }
  }

  lemma {:induction false} PackTells(f: Fs, g: Fs, i: nat, hi: nat)
    ensures Pack(f, i, hi) == Pack(g, i, hi) <==> forall k: nat :: i <= k < hi ==> SameInode(f, g, k)
    decreases hi - i
  {
    if i < hi {
      PackTells(f, g, i + 1, hi);
      WordsTell(f, g, i, Pack(f, i + 1, hi), Pack(g, i + 1, hi));
    }
  }

  function Bits(lay: Layout, f: Fs, c: nat): seq<nat> {
    seq(|f.used|, b requires 0 <= b < |f.used| => if BitmapBlock(lay, b) == c && f.used[b] then 1 else 0)
  }

  lemma BitsTell(lay: Layout, f: Fs, g: Fs, c: nat)
    requires |f.used| == |g.used|
    ensures Bits(lay, f, c) == Bits(lay, g, c) <==>
      forall b: nat :: b < |f.used| && BitmapBlock(lay, b) == c ==> g.used[b] == f.used[b]
  {
    if Bits(lay, f, c) == Bits(lay, g, c) {
      forall b: nat | b < |f.used| && BitmapBlock(lay, b) == c ensures g.used[b] == f.used[b] {
        assert Bits(lay, f, c)[b] == Bits(lay, g, c)[b];
      }
    }
  }

  /** Inode blocks, bitmap blocks and data blocks as words. */
  function Encode(lay: Layout, f: Fs, c: nat): LogMachine.Block {
    LogMachine.Block(
      if c < lay.bmapstart then
        if c < lay.inodestart then [] else Pack(f, (c - lay.inodestart) * IPB, (c - lay.inodestart + 1) * IPB)
      else if c < lay.meta then Bits(lay, f, c)
      else if c < |f.data| then f.data[c].bytes else [])
  }

  lemma InodeBlockRange(lay: Layout, c: nat, k: nat)
    requires lay.inodestart <= c
    ensures InodeBlock(lay, k) == c <==> (c - lay.inodestart) * IPB <= k < (c - lay.inodestart + 1) * IPB
  {
  }

  lemma InodesTell(lay: Layout, f: Fs, g: Fs, c: nat, i: nat, hi: nat)
    requires lay.inodestart <= c && i == (c - lay.inodestart) * IPB && hi == (c - lay.inodestart + 1) * IPB
    ensures Pack(f, i, hi) == Pack(g, i, hi) <==> forall k: nat :: InodeBlock(lay, k) == c ==> SameInode(f, g, k)
  {
    PackTells(f, g, i, hi);
    forall k: nat ensures InodeBlock(lay, k) == c <==> i <= k < hi {
      InodeBlockRange(lay, c, k);
    }
  }

  lemma EncodeTells(lay: Layout, f: Fs, g: Fs, c: nat)
    requires |f.used| == |g.used| && |f.data| == |g.data|
    ensures Encode(lay, f, c) == Encode(lay, g, c) <==> SamePart(lay, f, g, c)
  {
    if lay.inodestart <= c < lay.bmapstart {
      InodesTell(lay, f, g, c, (c - lay.inodestart) * IPB, (c - lay.inodestart + 1) * IPB);
    } else if lay.bmapstart <= c < lay.meta {
      BitsTell(lay, f, g, c);
    }
  }

  /** There is an encoding for every layout. */
  lemma EncodeExact(lay: Layout, size: nat)
    ensures Encodes(lay, size, (f: Fs, c: nat) => Encode(lay, f, c))
  {
    forall f: Fs, g: Fs, c: nat | |f.used| == |g.used| && |f.data| == |g.data|
      ensures Encode(lay, f, c) == Encode(lay, g, c) <==> SamePart(lay, f, g, c)
    {
      EncodeTells(lay, f, g, c);
    }
  }
}
