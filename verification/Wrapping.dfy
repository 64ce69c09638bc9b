/** Counters that wrap at a multiple of the size of the ring they index. */
module Wrapping {
  lemma {:induction false} AddMultiple(a: nat, n: nat, c: nat)
    requires n > 0
    ensures (a + n * c) % n == a % n
    decreases c
  {
    if c > 0 {
      AddMultiple(a, n, c - 1);
      assert a + n * c == (a + n * (c - 1)) + n;
      AddOnce(a + n * (c - 1), n);
    }
  }

  lemma AddOnce(a: nat, n: nat)
    requires n > 0
    ensures (a + n) % n == a % n
  {
    var x := a + n;
    assert x == n * (x / n) + x % n && a == n * (a / n) + a % n;
    assert n * (a / n + 1) == n * (a / n) + n;
    SameRemainder(n, x / n, x % n, a / n + 1, a % n);
  }

  lemma SameRemainder(n: nat, q: nat, r: nat, q': nat, r': nat)
    requires r < n && r' < n && n * q + r == n * q' + r'
    ensures r == r'
  {
    if q > q' {
      Above(n, q, q');
    } else if q < q' {
      Above(n, q', q);
    }
  }

  lemma {:induction false} Above(n: nat, q: nat, p: nat)
    requires q > p
    ensures n * q >= n * p + n
    decreases q
  {
    assert n * q == n * (q - 1) + n;
    if q - 1 > p {
      Above(n, q - 1, p);
    }
  }

  /** Wrapping `m` at `c` times the ring size `n` does not change the slot `k` places on. */
  lemma Wrapped(m: nat, k: nat, n: nat, c: nat, w: nat)
    requires n > 0 && c > 0 && w == n * c
    ensures (m % w + k) % n == (m + k) % n
  {
    var q, r := m / w, m % w;
    assert m == w * q + r;
    assert w * q == n * (c * q);
    AddMultiple(r + k, n, c * q);
  }
}
