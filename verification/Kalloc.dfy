/**
 * The physical page allocator of kernel/kalloc.c.  Pages are named by their index from
 * `page_start`; region `r` is the 2 MiB group of pages 512 * r .. 512 * r + 512.
 */
module Kalloc {
  import opened MemLayout
  import opened Options

  const REGIONS := 63
  const GROUP := 512
  const PAGES := 32256

  // ----- counting

  /** Allocated pages (bits that are 0) in `pl[lo..hi]`. */
  function Used(pl: seq<bool>, lo: nat, hi: nat): (n: nat)
    requires lo <= hi <= |pl|
    ensures n <= hi - lo
  {
    if lo == hi then 0 else Used(pl, lo, hi - 1) + (if pl[hi - 1] then 0 else 1)
  }

  function Flag(free: bool): int { if free then 0 else 1 }

  lemma {:induction false} UsedUpdate(pl: seq<bool>, lo: nat, hi: nat, p: nat, free: bool)
    requires lo <= hi <= |pl| && p < |pl|
    ensures Used(pl[p := free], lo, hi) ==
      Used(pl, lo, hi) + if lo <= p < hi then Flag(free) - Flag(pl[p]) else 0
  {
    if lo < hi { UsedUpdate(pl, lo, hi - 1, p, free); }
  }

  lemma {:induction false} UsedExtremes(pl: seq<bool>, lo: nat, hi: nat)
    requires lo <= hi <= |pl|
    ensures Used(pl, lo, hi) == 0 <==> forall p :: lo <= p < hi ==> pl[p]
    ensures Used(pl, lo, hi) == hi - lo <==> forall p :: lo <= p < hi ==> !pl[p]
  {
    if lo < hi { UsedExtremes(pl, lo, hi - 1); }
  }

  lemma {:induction false} UsedSplit(pl: seq<bool>, lo: nat, mid: nat, hi: nat)
    requires lo <= mid <= hi <= |pl|
    ensures Used(pl, lo, hi) == Used(pl, lo, mid) + Used(pl, mid, hi)
  {
    if mid < hi { UsedSplit(pl, lo, mid, hi - 1); }
  }

  /** Regions handed out as one huge page, among the first `k`. */
  function Huge(h: seq<int>, k: nat): (n: nat)
    requires k <= |h|
  {
    if k == 0 then 0 else Huge(h, k - 1) + (if h[k - 1] == -1 then 1 else 0)
  }

  lemma {:induction false} HugeUpdate(h: seq<int>, k: nat, r: nat, v: int)
    requires k <= |h| && r < |h|
    ensures Huge(h[r := v], k) ==
      Huge(h, k) + if r < k then (if v == -1 then 1 else 0) - (if h[r] == -1 then 1 else 0) else 0
  {
    if k > 0 { HugeUpdate(h, k - 1, r, v); }
  }

  // ----- the invariant, on the contents of the arrays

  /** Counter of region `r`: -1 for a huge page with all its page bits free, else its allocated pages. */
  ghost predicate RegionOk(h: seq<int>, pl: seq<bool>, hrefs: seq<nat>, r: nat)
    requires |h| == |hrefs| == REGIONS && |pl| == PAGES && r < REGIONS
  {
    if h[r] == -1 then Used(pl, GROUP * r, GROUP * r + GROUP) == 0 && hrefs[r] > 0
    else h[r] == Used(pl, GROUP * r, GROUP * r + GROUP) && hrefs[r] == 0
  }

  ghost predicate Regions(h: seq<int>, pl: seq<bool>, hrefs: seq<nat>) {
    && |h| == |hrefs| == REGIONS && |pl| == PAGES
    && forall r :: 0 <= r < REGIONS ==> RegionOk(h, pl, hrefs, r)
  }

  /** A page bit is free exactly when nothing refers to the page. */
  ghost predicate RefsOk(pl: seq<bool>, refs: seq<nat>) {
    |pl| == |refs| == PAGES && forall p :: 0 <= p < PAGES ==> (pl[p] <==> refs[p] == 0)
  }

  ghost predicate Totals(h: seq<int>, pl: seq<bool>, freemem: int, used4k: int, used2m: int) {
    && |h| == REGIONS && |pl| == PAGES
    && used4k == Used(pl, 0, PAGES) && used2m == Huge(h, REGIONS)
    && freemem + used4k + GROUP * used2m == PAGES + GROUP
  }

  /** The page exists, is not handed out, and is not part of a huge page. */
  ghost predicate Available(h: seq<int>, pl: seq<bool>, p: int) {
    |h| == REGIONS && |pl| == PAGES && 0 <= p < PAGES && pl[p] && h[p / GROUP] != -1
  }

  lemma RegionOfPage(p: nat)
    requires p < PAGES
    ensures p / GROUP < REGIONS && GROUP * (p / GROUP) <= p < GROUP * (p / GROUP) + GROUP
  {
  }

  /** Handing out or taking back page `p` of a region that is not huge. */
  lemma PageFlip(h: seq<int>, pl: seq<bool>, hrefs: seq<nat>, p: nat, free: bool)
    requires Regions(h, pl, hrefs) && p < PAGES && h[p / GROUP] != -1
    ensures Regions(h[p / GROUP := h[p / GROUP] + Flag(free) - Flag(pl[p])], pl[p := free], hrefs)
    ensures Used(pl[p := free], 0, PAGES) == Used(pl, 0, PAGES) + Flag(free) - Flag(pl[p])
    ensures Huge(h[p / GROUP := h[p / GROUP] + Flag(free) - Flag(pl[p])], REGIONS) == Huge(h, REGIONS)
  {
    var g := p / GROUP;
    var v := h[g] + Flag(free) - Flag(pl[p]);
    var h', pl' := h[g := v], pl[p := free];
    RegionOfPage(p);
    forall r | 0 <= r < REGIONS ensures RegionOk(h', pl', hrefs, r) {
      assert RegionOk(h, pl, hrefs, r);
      UsedUpdate(pl, GROUP * r, GROUP * r + GROUP, p, free);
    }
    UsedUpdate(pl, GROUP * g, GROUP * g + GROUP, p, free);
    assert RegionOk(h, pl, hrefs, g);
    assert v == Used(pl', GROUP * g, GROUP * g + GROUP);
    UsedUpdate(pl, 0, PAGES, p, free);
    HugeUpdate(h, REGIONS, g, v);
  }

  /** Handing out or taking back a whole region none of whose pages is allocated. */
  lemma RegionFlip(h: seq<int>, pl: seq<bool>, hrefs: seq<nat>, r: nat, v: int, n: nat)
    requires Regions(h, pl, hrefs) && r < REGIONS && (h[r] == 0 || h[r] == -1)
    requires (v == -1 && n > 0) || (v == 0 && n == 0)
    ensures Regions(h[r := v], pl, hrefs[r := n])
    ensures Huge(h[r := v], REGIONS) == Huge(h, REGIONS) + (if v == -1 then 1 else 0) - (if h[r] == -1 then 1 else 0)
  {
    var h', hrefs' := h[r := v], hrefs[r := n];
    assert RegionOk(h, pl, hrefs, r);
    forall s | 0 <= s < REGIONS ensures RegionOk(h', pl, hrefs', s) {
      assert RegionOk(h, pl, hrefs, s);
    }
    HugeUpdate(h, REGIONS, r, v);
  }

  /** Pages that are free and not part of a huge page, among the first `k` regions. */
  function FreePages(h: seq<int>, pl: seq<bool>, k: nat): int
    requires |h| == REGIONS && |pl| == PAGES && k <= REGIONS
  {
    if k == 0 then 0
    else FreePages(h, pl, k - 1) + if h[k - 1] == -1 then 0 else GROUP - Used(pl, GROUP * (k - 1), GROUP * k)
  }

  lemma {:induction false} FreePagesCount(h: seq<int>, pl: seq<bool>, hrefs: seq<nat>, k: nat)
    requires Regions(h, pl, hrefs) && k <= REGIONS
    ensures FreePages(h, pl, k) + Used(pl, 0, GROUP * k) + GROUP * Huge(h, k) == GROUP * k
  {
    if k > 0 {
      FreePagesCount(h, pl, hrefs, k - 1);
      UsedSplit(pl, 0, GROUP * (k - 1), GROUP * k);
      assert RegionOk(h, pl, hrefs, k - 1);
    }
  }

  /** The reported `freemem` exceeds the pages that can still be handed out by exactly 512. */
  lemma FreememMeaning(h: seq<int>, pl: seq<bool>, hrefs: seq<nat>, freemem: int, used4k: int, used2m: int)
    requires Regions(h, pl, hrefs) && Totals(h, pl, freemem, used4k, used2m)
    ensures freemem == GROUP + FreePages(h, pl, REGIONS)
  {
    FreePagesCount(h, pl, hrefs, REGIONS);
  }

  /** No 4K page in use lies in a live 2M page. */
  lemma NoOverlap(h: seq<int>, pl: seq<bool>, hrefs: seq<nat>, p: nat)
    requires Regions(h, pl, hrefs) && p < PAGES && !pl[p]
    ensures h[p / GROUP] != -1
  {
    var r := p / GROUP;
    RegionOfPage(p);
    assert RegionOk(h, pl, hrefs, r);
    UsedExtremes(pl, GROUP * r, GROUP * r + GROUP);
  }

  // ----- which page `kalloc` picks

  ghost predicate Partly(h: seq<int>, r: int) {
    0 <= r < |h| && 0 < h[r] < GROUP
  }

  /** Region chosen by the two searches: the first partly used one, else the first empty one. */
  ghost predicate Chosen(h: seq<int>, r: int) {
    && 0 <= r < |h| && 0 <= h[r] < GROUP
    && (forall i :: 0 <= i < r && h[r] > 0 ==> !Partly(h, i))
    && (h[r] == 0 ==> forall i :: 0 <= i < |h| ==> !Partly(h, i))
    && (forall i :: 0 <= i < r && h[r] == 0 ==> h[i] != 0)
  }

  /** If no region is chosen, no page outside huge pages is free. */
  lemma NothingLeft(h: seq<int>, pl: seq<bool>, hrefs: seq<nat>, p: int)
    requires Regions(h, pl, hrefs) && forall r :: 0 <= r < REGIONS ==> h[r] != 0 && !Partly(h, r)
    ensures !Available(h, pl, p)
  {
    if 0 <= p < PAGES {
      var r := p / GROUP;
      RegionOfPage(p);
      assert RegionOk(h, pl, hrefs, r);
      UsedExtremes(pl, GROUP * r, GROUP * r + GROUP);
      assert !Partly(h, r);
    }
  }

  class Kmem {
    const hugepagelist: array<int>
    const pagelist: array<bool>
    const paReferenced: array<nat>       // 8-bit counters
    const hugePaReferenced: array<nat>   // 8-bit counters
    var freemem: int
    var used4k: int
    var used2m: int

    ghost predicate Valid()
      reads this, hugepagelist, pagelist, paReferenced, hugePaReferenced
    {
      && Regions(hugepagelist[..], pagelist[..], hugePaReferenced[..])
      && RefsOk(pagelist[..], paReferenced[..])
      && Totals(hugepagelist[..], pagelist[..], freemem, used4k, used2m)
      && paReferenced != hugePaReferenced
    }

    /** The two search loops at the top of `kalloc`. */
    method ChooseRegion() returns (r: Option<nat>)
      requires hugepagelist.Length == REGIONS
      ensures r.Some? ==> Chosen(hugepagelist[..], r.value)
      ensures r.None? ==> forall i :: 0 <= i < REGIONS ==> hugepagelist[i] != 0 && !Partly(hugepagelist[..], i)
    {
      for i := 0 to REGIONS
        invariant forall j :: 0 <= j < i ==> !Partly(hugepagelist[..], j)
      {
        if 0 < hugepagelist[i] && hugepagelist[i] < GROUP {
          return Some(i);
        }
      }
      for i := 0 to REGIONS
        invariant forall j :: 0 <= j < i ==> hugepagelist[j] != 0
      {
        if hugepagelist[i] == 0 {
          return Some(i);
        }
      }
      return None;
    }

    /** The scan inside the chosen region: it always finds a free page, the first one. */
    method ScanRegion(r: nat) returns (p: nat)
      requires Valid() && r < REGIONS && 0 <= hugepagelist[r] < GROUP
      ensures p < PAGES && p / GROUP == r && pagelist[p]
      ensures forall i :: GROUP * r <= i < p ==> !pagelist[i]
    {
      p := r * GROUP;
      var end := p + GROUP;
      while p < end && !pagelist[p]
        invariant GROUP * r <= p <= end
        invariant forall i :: GROUP * r <= i < p ==> !pagelist[i]
      {
        p := p + 1;
      }
      assert RegionOk(hugepagelist[..], pagelist[..], hugePaReferenced[..], r);
      UsedExtremes(pagelist[..], GROUP * r, GROUP * r + GROUP);
    }

    /** `kalloc`: `None` is the null pointer. */
    method Kalloc() returns (page: Option<nat>)
      requires Valid()
      modifies this, hugepagelist, pagelist, paReferenced
      ensures Valid()
      ensures page.None? <==> forall p :: !old(Available(hugepagelist[..], pagelist[..], p))
      ensures page.None? ==> unchanged(this, hugepagelist, pagelist, paReferenced)
      ensures page.Some? ==> old(Available(hugepagelist[..], pagelist[..], page.value))
      ensures page.Some? ==> Chosen(old(hugepagelist[..]), page.value / GROUP)
      ensures page.Some? ==> forall i :: GROUP * (page.value / GROUP) <= i < page.value ==> !old(pagelist[i])
      ensures page.Some? ==> pagelist[..] == old(pagelist[..])[page.value := false]
      ensures page.Some? ==> paReferenced[..] == old(paReferenced[..])[page.value := 1]
      ensures page.Some? ==> freemem == old(freemem) - 1
      ensures used2m == old(used2m)
    {
      var r := ChooseRegion();
      if r.None? {
        forall p ensures !Available(hugepagelist[..], pagelist[..], p) {
          NothingLeft(hugepagelist[..], pagelist[..], hugePaReferenced[..], p);
        }
        return None;
      }
      var p := ScanRegion(r.value);
      PageFlip(hugepagelist[..], pagelist[..], hugePaReferenced[..], p, false);
      assert Available(hugepagelist[..], pagelist[..], p);
      paReferenced[p] := (paReferenced[p] + 1) % 256;
      if paReferenced[p] == 1 {
        pagelist[p] := false;
        hugepagelist[r.value] := hugepagelist[r.value] + 1;
        freemem := freemem - 1;
        used4k := used4k + 1;
      }
      return Some(p);
    }
  
    /** `kfree`: false is the panic "double kfree". */
    method Kfree(p: nat) returns (ok: bool)
      requires Regions(hugepagelist[..], pagelist[..], hugePaReferenced[..])
      requires paReferenced.Length == PAGES && p < PAGES && paReferenced != hugePaReferenced
      modifies this, hugepagelist, pagelist, paReferenced
      ensures ok == !old(pagelist[p])
      ensures !ok ==> unchanged(this, hugepagelist, pagelist, paReferenced)
      ensures ok ==> paReferenced[..] == old(paReferenced[..])[p := Less(old(paReferenced[p]))]
      ensures ok ==> pagelist[..] == old(pagelist[..])[p := paReferenced[p] == 0]
      ensures Regions(hugepagelist[..], pagelist[..], hugePaReferenced[..])
      ensures freemem - old(freemem) == old(used4k) - used4k == if ok && paReferenced[p] == 0 then 1 else 0
      ensures used2m == old(used2m) && Huge(hugepagelist[..], REGIONS) == old(Huge(hugepagelist[..], REGIONS))
      ensures old(Valid()) ==> Valid()
    {
      if pagelist[p] {
        return false;
      }
      NoOverlap(hugepagelist[..], pagelist[..], hugePaReferenced[..], p);
      PageFlip(hugepagelist[..], pagelist[..], hugePaReferenced[..], p, true);
      if paReferenced[p] > 0 {
        paReferenced[p] := paReferenced[p] - 1;
      }
      if paReferenced[p] == 0 {
        pagelist[p] := true;
        hugepagelist[p / GROUP] := hugepagelist[p / GROUP] - 1;
        freemem := freemem + 1;
        used4k := used4k - 1;
      }
      ok := true;
    }

    /** `kalloc_huge`: takes the first region with no page in use. */
    method KallocHuge() returns (region: Option<nat>)
      requires Valid()
      modifies this, hugepagelist, hugePaReferenced
      ensures Valid()
      ensures region.None? ==> forall r :: 0 <= r < REGIONS ==> old(hugepagelist[r]) != 0
      ensures region.None? ==> unchanged(this, hugepagelist, hugePaReferenced)
      ensures region.Some? ==> region.value < REGIONS && old(hugepagelist[region.value]) == 0
      ensures region.Some? ==> forall i :: 0 <= i < region.value ==> old(hugepagelist[i]) != 0
      ensures region.Some? ==> hugepagelist[..] == old(hugepagelist[..])[region.value := -1]
      ensures region.Some? ==> hugePaReferenced[..] == old(hugePaReferenced[..])[region.value := 1]
      ensures region.Some? ==> freemem == old(freemem) - GROUP && used2m == old(used2m) + 1
    {
      for i := 0 to REGIONS
        invariant unchanged(this, hugepagelist, hugePaReferenced)
        invariant forall j :: 0 <= j < i ==> hugepagelist[j] != 0
      {
        if hugepagelist[i] == 0 {
          assert RegionOk(hugepagelist[..], pagelist[..], hugePaReferenced[..], i);
          RegionFlip(hugepagelist[..], pagelist[..], hugePaReferenced[..], i, -1, 1);
          hugepagelist[i] := -1;
          hugePaReferenced[i] := (hugePaReferenced[i] + 1) % 256;
          freemem := freemem - GROUP;
          used2m := used2m + 1;
          return Some(i);
        }
      }
      return None;
    }

    /** `kfree_huge`: false is its panic on a region that is not a huge page. */
    method KfreeHuge(r: nat) returns (ok: bool)
      requires Valid() && r < REGIONS
      modifies this, hugepagelist, hugePaReferenced
      ensures Valid() && ok == (old(hugepagelist[r]) == -1)
      ensures !ok ==> unchanged(this, hugepagelist, hugePaReferenced)
      ensures ok ==> hugePaReferenced[..] == old(hugePaReferenced[..])[r := Less(old(hugePaReferenced[r]))]
      ensures ok ==> hugepagelist[..] == old(hugepagelist[..])[r := if hugePaReferenced[r] == 0 then 0 else -1]
      ensures freemem - old(freemem) == GROUP * (old(used2m) - used2m)
    {
      if hugepagelist[r] != -1 {
        return false;
      }
      assert RegionOk(hugepagelist[..], pagelist[..], hugePaReferenced[..], r);
      if hugePaReferenced[r] == 1 {
        RegionFlip(hugepagelist[..], pagelist[..], hugePaReferenced[..], r, 0, 0);
      } else {
        RegionFlip(hugepagelist[..], pagelist[..], hugePaReferenced[..], r, -1, hugePaReferenced[r] - 1);
      }
      if hugePaReferenced[r] > 0 {
        hugePaReferenced[r] := hugePaReferenced[r] - 1;
      }
      if hugePaReferenced[r] == 0 {
        hugepagelist[r] := 0;
        freemem := freemem + GROUP;
        used2m := used2m - 1;
      }
      assert hugePaReferenced[..] == old(hugePaReferenced[..])[r := hugePaReferenced[r]];
      assert hugepagelist[..] == old(hugepagelist[..])[r := hugepagelist[r]];
      ok := true;
    }

    /** `incr_pa_ref`: keeps the invariant exactly when the page is in use and its 8-bit count does not wrap. */
    method IncrPaRef(p: nat)
      requires Valid() && p < PAGES && paReferenced[p] < 256
      modifies paReferenced
      ensures paReferenced[..] == old(paReferenced[..])[p := (old(paReferenced[p]) + 1) % 256]
      ensures Valid() <==> 0 < old(paReferenced[p]) < 255
    {
      paReferenced[p] := (paReferenced[p] + 1) % 256;
      assert pagelist[..][p] == pagelist[p] && paReferenced[..][p] == paReferenced[p];
    }

    /** `incr_huge_pa_ref`: likewise for a live huge page. */
    method IncrHugePaRef(r: nat)
      requires Valid() && r < REGIONS && hugePaReferenced[r] < 256
      modifies hugePaReferenced
      ensures hugePaReferenced[..] == old(hugePaReferenced[..])[r := (old(hugePaReferenced[r]) + 1) % 256]
      ensures Valid() <==> hugepagelist[r] == -1 && old(hugePaReferenced[r]) < 255
    {
      ghost var h, pl, hrefs := hugepagelist[..], pagelist[..], hugePaReferenced[..];
      assert RegionOk(h, pl, hrefs, r);
      hugePaReferenced[r] := (hugePaReferenced[r] + 1) % 256;
      ghost var hrefs' := hugePaReferenced[..];
      assert hrefs' == hrefs[r := (hrefs[r] + 1) % 256];
      if hugepagelist[r] == -1 && hrefs[r] < 255 {
        RegionFlip(h, pl, hrefs, r, -1, hrefs[r] + 1);
        assert h[r := -1] == h;
      } else {
        assert !RegionOk(h, pl, hrefs', r);
      }
    }

    /** Memory as the loader leaves it: all zero. */
    constructor ()
      ensures hugepagelist.Length == hugePaReferenced.Length == REGIONS
      ensures pagelist.Length == paReferenced.Length == PAGES && paReferenced != hugePaReferenced
      ensures forall p :: 0 <= p < PAGES ==> !pagelist[p] && paReferenced[p] == 0
      ensures forall r :: 0 <= r < REGIONS ==> hugePaReferenced[r] == 0
      ensures freemem == used4k == used2m == 0
      ensures fresh(hugepagelist) && fresh(pagelist) && fresh(paReferenced) && fresh(hugePaReferenced)
    {
      hugepagelist := new int[REGIONS](_ => 0);
      pagelist := new bool[PAGES](_ => false);
      paReferenced := new nat[PAGES](_ => 0);
      hugePaReferenced := new nat[REGIONS](_ => 0);
      freemem, used4k, used2m := 0, 0, 0;
    }

    /** `kinit` and `freerange`: every page is freed once, then the counters are put right. */
    method Kinit()
      requires hugepagelist.Length == hugePaReferenced.Length == REGIONS
      requires pagelist.Length == paReferenced.Length == PAGES && paReferenced != hugePaReferenced
      requires forall p :: 0 <= p < PAGES ==> !pagelist[p] && paReferenced[p] == 0
      requires forall r :: 0 <= r < REGIONS ==> hugePaReferenced[r] == 0
      requires freemem == used4k == used2m == 0
      modifies this, hugepagelist, pagelist, paReferenced
      ensures Valid() && forall p :: 0 <= p < PAGES ==> pagelist[p]
      ensures freemem == PAGES + GROUP && used4k == 0 && used2m == 0
    {
      for i := 0 to REGIONS
        modifies hugepagelist
        invariant forall j :: 0 <= j < i ==> hugepagelist[j] == GROUP
      {
        hugepagelist[i] := GROUP;
      }
      FullRegions(hugepagelist[..], pagelist[..], hugePaReferenced[..]);
      for p := 0 to PAGES
        invariant Regions(hugepagelist[..], pagelist[..], hugePaReferenced[..])
        invariant Huge(hugepagelist[..], REGIONS) == 0
        invariant forall i :: 0 <= i < PAGES ==> pagelist[i] == (i < p) && paReferenced[i] == 0
        invariant freemem == p && used2m == 0
      {
        ghost var pl, refs := pagelist[..], paReferenced[..];
        var ok := Kfree(p);
        assert forall i :: 0 <= i < PAGES ==>
          pagelist[..][i] == pl[p := true][i] && paReferenced[..][i] == refs[p := 0][i];
      }
      used4k := 0;
      freemem := freemem + GROUP;
      UsedExtremes(pagelist[..], 0, PAGES);
    }
  }

  function Less(n: nat): nat { if n > 0 then n - 1 else 0 }

  lemma {:induction false} NoHuge(h: seq<int>, k: nat)
    requires k <= |h| && forall i :: 0 <= i < k ==> h[i] != -1
    ensures Huge(h, k) == 0
  {
    if k > 0 { NoHuge(h, k - 1); }
  }

  lemma FullRegions(h: seq<int>, pl: seq<bool>, hrefs: seq<nat>)
    requires |h| == |hrefs| == REGIONS && |pl| == PAGES
    requires forall r :: 0 <= r < REGIONS ==> h[r] == GROUP && hrefs[r] == 0
    requires forall p :: 0 <= p < PAGES ==> !pl[p]
    ensures Regions(h, pl, hrefs) && Huge(h, REGIONS) == 0
  {
    forall r | 0 <= r < REGIONS ensures RegionOk(h, pl, hrefs, r) {
      UsedExtremes(pl, GROUP * r, GROUP * r + GROUP);
    }
    NoHuge(h, REGIONS);
  }

  // ----- addresses

  const HUGEPGSIZE := 2097152
  const PAGE_START := 0x8020_0000

  function PageIndex(pa: nat): int { (pa - PAGE_START) / PGSIZE }

  function HugepageIndex(pa: nat): int { (pa - PAGE_START) / HUGEPGSIZE }

  function PageAddress(i: int): int { PAGE_START + PGSIZE * i }

  /** On aligned addresses of managed memory the index functions are inverse, in range, and agree on regions. */
  lemma AddressIndex(pa: nat)
    requires PAGE_START <= pa < PHYSTOP && pa % PGSIZE == 0
    ensures 0 <= PageIndex(pa) < PAGES && PageAddress(PageIndex(pa)) == pa
    ensures HugepageIndex(pa) == PageIndex(pa) / GROUP
  {
  }
}
