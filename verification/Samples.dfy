/** Silence, shared by the modules that copy samples. */
module Samples {

  function Zeros(n: nat): (z: seq<int>)
    ensures |z| == n
  {
    seq(n, _ => 0)
  }
}
