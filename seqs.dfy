/** Sequence helpers shared by the models. */
module Seqs {

  /** The elements of `s` in reverse order (`reversed(s)`). */
  function Reverse<T>(s: seq<T>): (r: seq<T>)
    ensures |r| == |s| && forall k :: 0 <= k < |s| ==> r[k] == s[|s| - 1 - k]
  {
    if s == [] then [] else Reverse(s[1..]) + [s[0]]
  }

  /** Reversing twice gives back the sequence. */
  lemma ReverseReverse<T>(s: seq<T>)
    ensures Reverse(Reverse(s)) == s
  {
  }
}
