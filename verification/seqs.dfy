/** Sequence helpers used by the projection. */
module Seqs {

  /** `Array.prototype.map`: applies `f` to every element, keeping the
      elements' order and count. */
  function MapSeq<A, B>(f: A -> B, xs: seq<A>): (ys: seq<B>)
    ensures |ys| == |xs|
    ensures forall i :: 0 <= i < |xs| ==> ys[i] == f(xs[i])
  {
    if |xs| == 0 then [] else [f(xs[0])] + MapSeq(f, xs[1..])
  }
}
