/** What the modelled code does with sequences of any kind, and the smaller of two numbers. */
module Sequences {

  function Map<T, U>(change: T -> U, items: seq<T>): (changed: seq<U>)
    ensures |changed| == |items| && forall i :: 0 <= i < |items| ==> changed[i] == change(items[i])
  {
    seq(|items|, i requires 0 <= i < |items| => change(items[i]))
  }

  lemma MapStep<T, U>(change: T -> U, items: seq<T>, i: nat)
    requires i < |items|
    ensures Map(change, items[..i + 1]) == Map(change, items[..i]) + [change(items[i])]
  {
  }

  /** The index of the first occurrence, or the length. */
  function IndexOf<T(==)>(items: seq<T>, item: T): (i: nat)
    ensures i <= |items|
    ensures i < |items| ==> items[i] == item
    ensures forall k :: 0 <= k < i ==> items[k] != item
  {
    if items == [] || items[0] == item then 0 else 1 + IndexOf(items[1..], item)
  }

  function Min(a: nat, b: nat): nat { if a <= b then a else b }
}
