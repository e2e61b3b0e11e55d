/** Sequences with one element taken out. */
module Sequences {

  function Without<T>(q: seq<T>, m: int): seq<T>
    requires m >= 0
  {
    if m < |q| then q[..m] + q[m + 1..] else q
  }

  lemma WithoutAt<T>(q: seq<T>, m: int)
    requires 0 <= m < |q|
    ensures |Without(q, m)| == |q| - 1
    ensures forall i :: 0 <= i < |q| - 1 ==> Without(q, m)[i] == q[if i < m then i else i + 1]
  {
  }

  /** Taking an element out before the last leaves the last where it was. */
  lemma WithoutInner<T>(q: seq<T>, m: int)
    requires 0 <= m < |q|
    ensures var last := |q| - 1;
      if m == last then Without(q, m) == q[..last]
      else
        && Without(q, m) != [] && Without(q, m)[..last - 1] == Without(q[..last], m)
        && Without(q, m)[last - 1] == q[last]
    ensures |Without(q, m)| == |q| - 1
  {
  }
}
