/** Lists without repetition. */
module Lists {

  predicate Distinct<T(==)>(xs: seq<T>)
  {
    forall k, l :: 0 <= k < l < |xs| ==> xs[k] != xs[l]
  }
}
