/**
 * Rust's `Iterator::find`, shared by `demonstrate_iterators` and
 * `find_first_even`: the first element, from the front, that satisfies the
 * predicate.
 */
module Iteration {
  import opened Wrappers

  /** The index of the first element satisfying `p`, or `|s|` when there is none. */
  function FirstMatch<T>(s: seq<T>, p: T -> bool): (k: nat)
    ensures k <= |s|
    ensures k < |s| ==> p(s[k])
    ensures forall j :: 0 <= j < k ==> !p(s[j])
  {
    if s == [] then 0
    else if p(s[0]) then 0
    else 1 + FirstMatch(s[1..], p)
  }

  /**
   * `iter().find(p)`: None exactly when no element satisfies `p`; otherwise
   * an element satisfying `p` with no such element before it.
   */
  function Find<T>(s: seq<T>, p: T -> bool): (r: Option<T>)
    ensures r.None? <==> forall i :: 0 <= i < |s| ==> !p(s[i])
    ensures r.Some? ==> exists i :: 0 <= i < |s| && s[i] == r.value && p(s[i]) && forall j :: 0 <= j < i ==> !p(s[j])
  {
    var k := FirstMatch(s, p);
    if k < |s| then Some(s[k]) else None
  }
}
