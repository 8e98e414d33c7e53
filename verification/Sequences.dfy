/** Sequences turned round. */
module Sequences {
  function Reversed<T>(l: seq<T>): (r: seq<T>)
    ensures |r| == |l|
    ensures forall i :: 0 <= i < |l| ==> r[i] == l[|l| - 1 - i]
  {
    if l == [] then [] else Reversed(l[1..]) + [l[0]]
  }
}
