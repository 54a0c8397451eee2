/**
 * Reference definitions for the two loop shapes the tool uses: a filter
 * that keeps some elements in order, and a map whose step may raise.
 */
module Sequences {
  import opened Wrappers

  /** The indices of the elements of `s` that `keep` selects, in increasing order. */
  function Positions<T>(s: seq<T>, keep: T -> bool): (pos: seq<nat>)
    ensures forall j :: 0 <= j < |pos| ==> pos[j] < |s| && keep(s[pos[j]])
    ensures forall j, j' :: 0 <= j < j' < |pos| ==> pos[j] < pos[j']
    ensures forall k :: 0 <= k < |s| && keep(s[k]) ==> k in pos
  {
    if s == [] then []
    else
      var front := Positions(s[..|s| - 1], keep);
      if keep(s[|s| - 1]) then front + [|s| - 1] else front
  }

  /**
   * Applies `f` to every element in order and stops at the first error,
   * as a Python loop whose body may raise does.
   */
  function MapAll<A, B, E>(s: seq<A>, f: A -> Result<B, E>): (r: Result<seq<B>, E>)
    ensures r.Ok? <==> forall k :: 0 <= k < |s| ==> f(s[k]).Ok?
    ensures r.Ok? ==> |r.value| == |s| && forall k :: 0 <= k < |s| ==> r.value[k] == f(s[k]).value
  {
    if s == [] then Ok([])
    else
      match f(s[0])
      case Err(e) => Err(e)
      case Ok(b) =>
        match MapAll(s[1..], f)
        case Err(e) => Err(e)
        case Ok(bs) => Ok([b] + bs)
  }

  /** The error MapAll reports is the one raised by the first failing element. */
  lemma {:induction false} MapAllFirstError<A, B, E>(s: seq<A>, f: A -> Result<B, E>, i: nat)
    requires i < |s| && f(s[i]).Err?
    requires forall k :: 0 <= k < i ==> f(s[k]).Ok?
    ensures MapAll(s, f) == Err(f(s[i]).error)
  {
    if i > 0 {
      MapAllFirstError(s[1..], f, i - 1);
    }
  }
}
