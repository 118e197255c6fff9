/** Running-best scans. Each keeps the first candidate and replaces it only
    on a STRICT improvement, so among equal values the earliest one wins. */
module Extremes {

  /** Index of the first smallest value (`if (d < bestD)` scans). */
  function FirstMin(xs: seq<real>): (w: nat)
    requires |xs| > 0
    ensures w < |xs|
    ensures forall k :: 0 <= k < |xs| ==> xs[w] <= xs[k]
    ensures forall k :: 0 <= k < w ==> xs[k] > xs[w]
  {
    if |xs| == 1 then 0
    else
      var w := FirstMin(xs[..|xs| - 1]);
      if xs[|xs| - 1] < xs[w] then |xs| - 1 else w
  }

  /** Index of the first largest value (`if (score > bestScore)` scans). */
  function FirstMax(xs: seq<real>): (w: nat)
    requires |xs| > 0
    ensures w < |xs|
    ensures forall k :: 0 <= k < |xs| ==> xs[k] <= xs[w]
    ensures forall k :: 0 <= k < w ==> xs[k] < xs[w]
  {
    if |xs| == 1 then 0
    else
      var w := FirstMax(xs[..|xs| - 1]);
      if xs[|xs| - 1] > xs[w] then |xs| - 1 else w
  }

  /** Extending the scanned prefix by one element is one more scan step. */
  lemma FirstMinStep(xs: seq<real>, i: nat)
    requires 0 < i < |xs|
    ensures FirstMin(xs[..i + 1]) ==
      (if xs[i] < xs[FirstMin(xs[..i])] then i else FirstMin(xs[..i]))
  {
    assert xs[..i + 1][..i] == xs[..i];
  }

  lemma FirstMaxStep(xs: seq<real>, i: nat)
    requires 0 < i < |xs|
    ensures FirstMax(xs[..i + 1]) ==
      (if xs[i] > xs[FirstMax(xs[..i])] then i else FirstMax(xs[..i]))
  {
    assert xs[..i + 1][..i] == xs[..i];
  }
}
