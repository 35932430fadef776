/** Searches over sequences shared by the reconcilers and the registry. */
module Collections {
  import opened Wrappers

  /** Index of the first element of `xs`, in order, that satisfies `p`; `None` when
      no element does. This is the shape of every `for ... { if ... { break } }`
      search in the controllers. */
  function FirstWhere<T>(xs: seq<T>, p: T -> bool): (r: Option<nat>)
    ensures r.Some? ==> r.value < |xs| && p(xs[r.value])
    ensures r.Some? ==> forall j :: 0 <= j < r.value ==> !p(xs[j])
    ensures r.None? <==> forall j :: 0 <= j < |xs| ==> !p(xs[j])
    decreases |xs|
  {
    if |xs| == 0 then None
    else if p(xs[0]) then Some(0)
    else
      match FirstWhere(xs[1..], p)
      case None => None
      case Some(i) => Some(i + 1)
  }
}
