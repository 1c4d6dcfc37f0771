/** The shape every search loop of `sync.py` shares: walk a list front to
    back and stop at the first item that passes a test. */
module Positions {

  /** The position of the first `true` in `tests` at or after `k`, or `|tests|`. */
  function FirstTrueFrom(tests: seq<bool>, k: nat): (i: nat)
    requires k <= |tests|
    ensures k <= i <= |tests|
    ensures i < |tests| ==> tests[i]
    ensures forall j :: k <= j < i ==> !tests[j]
    decreases |tests| - k
  {
    if k == |tests| || tests[k] then k else FirstTrueFrom(tests, k + 1)
  }
}
