/** Bounded searches over positions. The hand-written regular-expression
    matchers of this model are built from them: a leftmost match is the
    first start position that has a completion, a greedy quantifier takes
    the last end position that works and a lazy one the first. */
module Search {
  import opened Basics

  /** The least index j in [lo, hi) with p(j). */
  function FirstIndex(lo: nat, hi: nat, p: nat -> bool): (r: Option<nat>)
    decreases hi - lo
    ensures r.Some? ==> lo <= r.value < hi && p(r.value)
    ensures r.Some? ==> forall j: nat :: lo <= j < r.value ==> !p(j)
    ensures r.None? ==> forall j: nat :: lo <= j < hi ==> !p(j)
  {
    if lo >= hi then None
    else if p(lo) then Some(lo)
    else FirstIndex(lo + 1, hi, p)
  }

  /** A span [start, end) of a string that a pattern matched. */
  datatype Span = Span(start: nat, end: nat)

  /** The greatest e in [p, hi] with ok(p, e): where a greedy quantifier
      starting at p lets the match end. */
  function LongestEnd(p: nat, hi: nat, ok: (nat, nat) -> bool): (r: Option<nat>)
    decreases hi
    ensures r.Some? ==> p <= r.value <= hi && ok(p, r.value)
    ensures r.Some? ==> forall e: nat :: r.value < e <= hi ==> !ok(p, e)
    ensures r.None? ==> forall e: nat :: p <= e <= hi ==> !ok(p, e)
  {
    if hi < p then None
    else if ok(p, hi) then Some(hi)
    else if hi == p then None
    else LongestEnd(p, hi - 1, ok)
  }

  /** How a backtracking engine picks among the spans accepted by `ok` when
      the pattern is tried at each start from `from` on and a greedy
      quantifier decides where the match ends: the leftmost start that has
      any accepted end, and at that start the longest accepted span. */
  function LeftmostLongestFrom(from: nat, n: nat, ok: (nat, nat) -> bool): (r: Option<Span>)
    decreases n + 1 - from
    ensures r.Some? ==> from <= r.value.start <= r.value.end <= n && ok(r.value.start, r.value.end)
    ensures r.Some? ==> forall p: nat, e: nat :: from <= p <= e <= n && ok(p, e) ==>
                          r.value.start < p || (r.value.start == p && e <= r.value.end)
    ensures r.None? ==> forall p: nat, e: nat :: from <= p <= e <= n ==> !ok(p, e)
  {
    if from > n then None
    else
      match LongestEnd(from, n, ok)
      case Some(e) => Some(Span(from, e))
      case None => LeftmostLongestFrom(from + 1, n, ok)
  }
}
