/** Sampled signals: finite buffers read as if zeros came before and after them. */
module Signals {

  function RAt(x: seq<real>, i: int): real {
    if 0 <= i < |x| then x[i] else 0.0
  }

  /** The last d samples of a signal, as if silence came before it. */
  function LastSamples(x: seq<real>, d: nat): (w: seq<real>)
    ensures |w| == d && forall j :: 0 <= j < d ==> w[j] == RAt(x, |x| - d + j)
  {
    seq(d, j => RAt(x, |x| - d + j))
  }
}
