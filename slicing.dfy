/** `[s[i:i + step] for i in range(0, len(s), step)]`: cutting a sequence into
    consecutive pieces of a fixed length. */
module Slicing {

  /** `math.ceil(n / d)` for a non-negative `n` and a positive `d`: the
      fewest pieces of length `d` that cover `n` items. */
  function CeilDiv(n: nat, d: nat): (q: nat)
    requires d > 0
    ensures q * d >= n
    ensures q == 0 || (q - 1) * d < n
    decreases n
  {
    if n == 0 then 0 else if n <= d then 1 else 1 + CeilDiv(n - d, d)
  }

  /** All the pieces, in order, laid end to end. */
  function Flatten<T>(pieces: seq<seq<T>>): seq<T> {
    if pieces == [] then [] else pieces[0] + Flatten(pieces[1..])
  }

  /** Flattening from piece `j` on is piece `j` followed by the rest. */
  lemma FlattenFrom<T>(pieces: seq<seq<T>>, j: nat)
    requires j < |pieces|
    ensures Flatten(pieces[j..]) == pieces[j] + Flatten(pieces[j + 1..])
  {
    assert pieces[j..][1..] == pieces[j + 1..];
  }

  /** The pieces of `s`, each `step` long except possibly the last. */
  function SliceBy<T>(s: seq<T>, step: nat): (r: seq<seq<T>>)
    requires step > 0
    ensures Flatten(r) == s
    ensures |r| == CeilDiv(|s|, step)
    decreases |s|
  {
    if s == [] then []
    else if |s| <= step then [s]
    else
      var rest := SliceBy(s[step..], step);
      [s[..step]] + rest
  }

  /** Every piece is non-empty and at most `step` long, and all but the last
      are exactly `step` long. */
  lemma {:induction false} SliceByLengths<T>(s: seq<T>, step: nat)
    requires step > 0
    ensures forall k :: 0 <= k < |SliceBy(s, step)| ==> 0 < |SliceBy(s, step)[k]| <= step
    ensures forall k :: 0 <= k < |SliceBy(s, step)| - 1 ==> |SliceBy(s, step)[k]| == step
    decreases |s|
  {
    if |s| > step {
      SliceByLengths(s[step..], step);
      var rest := SliceBy(s[step..], step);
      var r := SliceBy(s, step);
      assert r == [s[..step]] + rest;
      assert forall k :: 0 < k < |r| ==> r[k] == rest[k - 1];
    }
  }

  lemma MulStep(k: nat, step: nat)
    requires k > 0
    ensures (k - 1) * step >= 0
    ensures (k - 1) * step + step == k * step
  {
  }

  /** Past the first piece, the pieces are those of the rest. */
  lemma SliceByTail<T>(s: seq<T>, step: nat, k: nat)
    requires step > 0 && 0 < k < |SliceBy(s, step)|
    ensures |s| > step && k - 1 < |SliceBy(s[step..], step)|
    ensures SliceBy(s, step)[k] == SliceBy(s[step..], step)[k - 1]
  {
  }

  /** Slicing after dropping `i` items is slicing `i` further along. */
  lemma DropThenSlice<T>(s: seq<T>, i: nat, a: nat, b: nat, x: nat, y: nat)
    requires i <= |s| && a <= b <= |s| - i && x == i + a && y == i + b
    ensures s[i..][a..b] == s[x..y]
  {
  }

  /** Piece `k` is the slice `s[k * step : k * step + step]`, clamped at
      the end (`start` names `k * step`). */
  lemma {:induction false} SliceByAt<T>(s: seq<T>, step: nat, k: nat, start: nat)
    requires step > 0 && k < |SliceBy(s, step)| && start == k * step
    ensures start < |s|
    ensures SliceBy(s, step)[k] == s[start .. if start + step < |s| then start + step else |s|]
    decreases k
  {
    if k == 0 {
      assert s != [];
    } else {
      SliceByTail(s, step, k);
      MulStep(k, step);
      var rest := s[step..];
      var a: nat := (k - 1) * step;
      SliceByAt(rest, step, k - 1, a);
      var b := if a + step < |rest| then a + step else |rest|;
      var e := if start + step < |s| then start + step else |s|;
      DropThenSlice(s, step, a, b, start, e);
    }
  }
}
