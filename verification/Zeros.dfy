module Zeros {
  function Fill(n: nat): (r: seq<nat>)
    ensures |r| == n && forall i :: 0 <= i < n ==> r[i] == 0
  {
    if n == 0 then [] else Fill(n - 1) + [0]
  }
}
