/** `collections.Counter(xs).most_common(1)[0]`: the most frequent item, with
    ties going to the item that occurs first (Counter keeps first-insertion
    order and `max` keeps the first maximal entry). */
module Tally {

  /** How many times `x` occurs in `xs`. */
  function Count<T(==)>(xs: seq<T>, x: T): nat {
    multiset(xs)[x]
  }

  /** The index of the first occurrence of `x` in `xs`. */
  function FirstIndex<T(==)>(xs: seq<T>, x: T): (k: nat)
    requires x in xs
    ensures k < |xs| && xs[k] == x && x !in xs[..k]
  {
    if xs[0] == x then 0 else 1 + FirstIndex(xs[1..], x)
  }

  /** The winner among `xs[..i]` so far, then the rest of the scan. */
  function Scan<T(==)>(xs: seq<T>, i: nat, best: T): (r: T)
    requires 0 < i <= |xs|
    requires best in xs[..i]
    requires forall j :: 0 <= j < i ==> Count(xs, xs[j]) <= Count(xs, best)
    requires forall j :: 0 <= j < i && Count(xs, xs[j]) == Count(xs, best) ==> FirstIndex(xs, best) <= j
    ensures r in xs
    ensures forall j :: 0 <= j < |xs| ==> Count(xs, xs[j]) <= Count(xs, r)
    ensures forall j :: 0 <= j < |xs| && Count(xs, xs[j]) == Count(xs, r) ==> FirstIndex(xs, r) <= j
    decreases |xs| - i
  {
    if i == |xs| then
      assert xs[..i] == xs;
      best
    else if Count(xs, xs[i]) > Count(xs, best) then
      assert xs[..i + 1] == xs[..i] + [xs[i]];
      Scan(xs, i + 1, xs[i])
    else
      assert xs[..i + 1] == xs[..i] + [xs[i]];
      Scan(xs, i + 1, best)
  }

  /** `Counter(xs).most_common(1)[0][0]` for a non-empty `xs`. */
  function MostCommon<T(==)>(xs: seq<T>): (r: T)
    requires xs != []
    ensures r in xs
    ensures forall y :: y in xs ==> Count(xs, y) <= Count(xs, r)
    ensures forall j :: 0 <= j < FirstIndex(xs, r) ==> Count(xs, xs[j]) < Count(xs, r)
  {
    var r := Scan(xs, 1, xs[0]);
    assert forall y :: y in xs ==> Count(xs, y) <= Count(xs, r) by {
      forall y | y in xs ensures Count(xs, y) <= Count(xs, r) {
        var j :| 0 <= j < |xs| && xs[j] == y;
      }
    }
    r
  }

  /** A winner's count never exceeds the number of items. */
  lemma CountBound<T>(xs: seq<T>, x: T)
    ensures Count(xs, x) <= |xs|
  {
    assert |multiset(xs)| == |xs|;
    if x in multiset(xs) {
      var rest := multiset(xs)[x := 0];
      assert multiset(xs) == rest + multiset{}[x := Count(xs, x)];
    }
  }
}
