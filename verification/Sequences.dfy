/** Searching and cutting sequences. */
module Sequences {
  import opened Wrappers

  /** The first position whose element satisfies `p`. */
  function IndexWhere<T>(xs: seq<T>, p: T -> bool): (r: Option<nat>)
    ensures r.Some? ==> r.value < |xs| && p(xs[r.value]) && forall j | 0 <= j < r.value :: !p(xs[j])
    ensures r.None? ==> forall i | 0 <= i < |xs| :: !p(xs[i])
  {
    if xs == [] then None
    else if p(xs[0]) then Some(0)
    else
      var r := IndexWhere(xs[1..], p);
      if r.None? then None else Some(r.value + 1)
  }

  /** The last `n` elements, or all if there are fewer. */
  function Last<T>(xs: seq<T>, n: nat): seq<T> {
    if |xs| > n then xs[|xs| - n..] else xs
  }
}
