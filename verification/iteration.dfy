/** Go 1.23 range-over-func iterators. An iterator function calls `yield`
    once per element of a fixed sequence and returns as soon as `yield`
    returns false. The consumer is modelled by the answer it gives at each
    position: any deterministic consumer's answer depends only on what it has
    been given so far, which the position determines. */
module Iteration {

  /** The elements an iterator over `items` hands to a consumer whose answer
      at position `i` is `keepGoing(i, items[i])`. */
  function Deliver<T>(items: seq<T>, keepGoing: (nat, T) -> bool): (d: seq<T>)
    ensures |d| <= |items| && d == items[..|d|]
    ensures forall i :: 0 <= i < |d| - 1 ==> keepGoing(i, d[i])
    ensures |d| < |items| ==> |d| > 0 && !keepGoing(|d| - 1, d[|d| - 1])
    ensures (forall i :: 0 <= i < |items| ==> keepGoing(i, items[i])) ==> d == items
  {
    DeliverFrom(items, keepGoing, 0)
  }

  function DeliverFrom<T>(items: seq<T>, keepGoing: (nat, T) -> bool, i: nat): (d: seq<T>)
    requires i <= |items|
    ensures i <= |d| <= |items| && d == items[..|d|]
    ensures forall j :: i <= j < |d| - 1 ==> keepGoing(j, d[j])
    ensures |d| < |items| ==> |d| > i && !keepGoing(|d| - 1, d[|d| - 1])
    ensures (forall j :: i <= j < |items| ==> keepGoing(j, items[j])) ==> d == items
    decreases |items| - i
  {
    if i == |items| then items
    else if !keepGoing(i, items[i]) then items[..i + 1]
    else DeliverFrom(items, keepGoing, i + 1)
  }
}
