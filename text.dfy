/** The handful of Python `str` operations the modelled code relies on,
    stated over `seq<char>`. */
module Text {

  /** `str.isspace()` of one code point: the characters `str.strip()` removes. */
  predicate IsSpace(c: char) {
    c == ' ' || ('\t' <= c <= '\r') || ('\U{1c}' <= c <= '\U{1f}')
    || c == '\U{85}' || c == '\U{a0}' || c == '\U{1680}'
    || ('\U{2000}' <= c <= '\U{200a}') || c == '\U{2028}' || c == '\U{2029}'
    || c == '\U{202f}' || c == '\U{205f}' || c == '\U{3000}'
  }

  /** True when `s` has no whitespace at either end. */
  predicate IsStripped(s: string) {
    s == [] || (!IsSpace(s[0]) && !IsSpace(s[|s| - 1]))
  }

  /** `str.lstrip()`: drops the leading whitespace and nothing else. */
  function LStrip(s: string): (r: string)
    ensures |r| <= |s| && r == s[|s| - |r|..]
    ensures r == [] || !IsSpace(r[0])
    ensures forall k :: 0 <= k < |s| - |r| ==> IsSpace(s[k])
  {
    if s != [] && IsSpace(s[0]) then LStrip(s[1..]) else s
  }

  /** `str.rstrip()`: drops the trailing whitespace and nothing else. */
  function RStrip(s: string): (r: string)
    ensures |r| <= |s| && r == s[..|r|]
    ensures r == [] || !IsSpace(r[|r| - 1])
    ensures forall k :: |r| <= k < |s| ==> IsSpace(s[k])
  {
    if s != [] && IsSpace(s[|s| - 1]) then RStrip(s[..|s| - 1]) else s
  }

  /** `r` is the slice of `s` starting at `i`, and everything of `s` before
      and after that slice is whitespace. */
  predicate Trimmed(s: string, r: string, i: int) {
    0 <= i && i + |r| <= |s| && r == s[i..i + |r|]
    && (forall k :: 0 <= k < i ==> IsSpace(s[k]))
    && (forall k :: i + |r| <= k < |s| ==> IsSpace(s[k]))
  }

  /** `str.strip()`: `s` without its leading and trailing whitespace, so an
      all-whitespace string strips to "". */
  function Strip(s: string): (r: string)
    ensures IsStripped(r)
    ensures |r| <= |s|
  {
    LStrip(RStrip(s))
  }

  /** What strip removes is whitespace only: the result is a slice of `s`
      with nothing but whitespace before and after it. */
  lemma StripTrims(s: string)
    ensures exists i :: Trimmed(s, Strip(s), i)
  {
    var t := RStrip(s);
    var r := LStrip(t);
    assert Strip(s) == r;
    assert forall k :: 0 <= k < |t| - |r| ==> s[k] == t[k];
    assert Trimmed(s, r, |t| - |r|);
  }

  /** Whitespace only strips to "", and nothing else does. */
  lemma StripEmptyIff(s: string)
    ensures Strip(s) == "" <==> forall k :: 0 <= k < |s| ==> IsSpace(s[k])
  {
    StripTrims(s);
    var i :| Trimmed(s, Strip(s), i);
    if Strip(s) != "" {
      assert !IsSpace(s[i]);
    }
  }

  /** Stripping a string that has no whitespace at its ends changes nothing. */
  lemma StripStripped(s: string)
    requires IsStripped(s)
    ensures Strip(s) == s
  {
  }

  /** `str.lower()` on one character (ASCII letters only). */
  function LowerChar(c: char): char {
    if 'A' <= c <= 'Z' then (c as int + 32) as char else c
  }

  /** `str.lower()` (ASCII letters only). */
  function Lower(s: string): (r: string)
    ensures |r| == |s|
  {
    seq(|s|, i requires 0 <= i < |s| => LowerChar(s[i]))
  }

  lemma LowerConcat(a: string, b: string)
    ensures Lower(a + b) == Lower(a) + Lower(b)
  {
  }

  lemma LowerSlice(s: string, i: nat, j: nat)
    requires i <= j <= |s|
    ensures Lower(s[i..j]) == Lower(s)[i..j]
  {
  }

  /** `s.startswith(p)`. */
  predicate StartsWith(s: string, p: string) {
    |p| <= |s| && s[..|p|] == p
  }

  /** `s.endswith(p)`. */
  predicate EndsWith(s: string, p: string) {
    |p| <= |s| && s[|s| - |p|..] == p
  }

  /** `sub` occurs in `s` starting at index `i`. */
  predicate OccursAt(s: string, sub: string, i: int) {
    0 <= i && i + |sub| <= |s| && s[i..i + |sub|] == sub
  }

  /** `sub in s`. */
  predicate Contains(s: string, sub: string) {
    exists i | 0 <= i <= |s| - |sub| :: OccursAt(s, sub, i)
  }

  /** The slice `s[:n]` for a non-negative `n`. */
  function Take<T>(s: seq<T>, n: nat): (r: seq<T>)
    ensures |r| <= n && |r| <= |s|
    ensures r == s[..|r|]
    ensures |s| <= n ==> r == s
  {
    if |s| <= n then s else s[..n]
  }

  /** `sep.join(parts)`. */
  function Join(parts: seq<string>, sep: string): (r: string)
    decreases |parts|
  {
    if |parts| == 0 then ""
    else if |parts| == 1 then parts[0]
    else parts[0] + sep + Join(parts[1..], sep)
  }

  /** A join starts with its first part and ends with its last part. */
  lemma {:induction false} JoinEnds(parts: seq<string>, sep: string)
    requires |parts| > 0
    ensures StartsWith(Join(parts, sep), parts[0])
    ensures EndsWith(Join(parts, sep), parts[|parts| - 1])
  {
    if |parts| > 1 {
      JoinEnds(parts[1..], sep);
    }
  }

  /** The length of a join: every part plus one separator between neighbours. */
  function TotalLength(parts: seq<string>): nat {
    if parts == [] then 0 else |parts[0]| + TotalLength(parts[1..])
  }

  lemma {:induction false} JoinLength(parts: seq<string>, sep: string)
    requires |parts| > 0
    ensures |Join(parts, sep)| == TotalLength(parts) + (|parts| - 1) * |sep|
  {
    if |parts| > 1 {
      JoinLength(parts[1..], sep);
    }
  }

  /** `s.rstrip(c)` for a single character `c`. */
  function RStripChar(s: string, c: char): (r: string)
    ensures |r| <= |s| && r == s[..|r|]
    ensures r == [] || r[|r| - 1] != c
    ensures forall k :: |r| <= k < |s| ==> s[k] == c
  {
    if s != [] && s[|s| - 1] == c then RStripChar(s[..|s| - 1], c) else s
  }

  /** `s.lstrip(c)` for a single character `c`. */
  function LStripChar(s: string, c: char): (r: string)
    ensures |r| <= |s| && r == s[|s| - |r|..]
    ensures r == [] || r[0] != c
    ensures forall k :: 0 <= k < |s| - |r| ==> s[k] == c
  {
    if s != [] && s[0] == c then LStripChar(s[1..], c) else s
  }

  /** `s.strip(c)` for a single character `c`. */
  function StripChar(s: string, c: char): string {
    LStripChar(RStripChar(s, c), c)
  }

  /** `s.removeprefix(p)`. */
  function RemovePrefix(s: string, p: string): (r: string)
    ensures StartsWith(s, p) ==> s == p + r
    ensures !StartsWith(s, p) ==> r == s
  {
    if StartsWith(s, p) then s[|p|..] else s
  }

  /** `s.split("/")[-1]`: the text after the last "/" (all of `s` when it has none). */
  function LastSegment(s: string): (r: string)
    ensures EndsWith(s, r)
    ensures '/' !in r
    ensures |r| < |s| ==> s[|s| - |r| - 1] == '/'
  {
    if s == [] then []
    else if s[|s| - 1] == '/' then []
    else LastSegment(s[..|s| - 1]) + [s[|s| - 1]]
  }

  /** Lower-casing neither makes nor removes a "/" or a ".". */
  lemma LowerCharKeeps(c: char)
    ensures LowerChar(c) == '/' <==> c == '/'
    ensures LowerChar(c) == '.' <==> c == '.'
  {
    if 'A' <= c <= 'Z' {
      assert 'a' as int <= c as int + 32 <= 'z' as int;
    }
  }

  lemma LowerSingle(c: char)
    ensures Lower([c]) == [LowerChar(c)]
  {
    assert Lower([c])[0] == LowerChar(c);
  }

  /** Appending a character other than "/" extends the last segment by it. */
  lemma LastSegmentSnoc(t: string, c: char)
    requires c != '/'
    ensures LastSegment(t + [c]) == LastSegment(t) + [c]
  {
    assert (t + [c])[..|t|] == t;
  }

  /** Lower-casing commutes with taking the last segment, as "/" is no letter. */
  lemma {:induction false} LowerLastSegment(s: string)
    ensures LastSegment(Lower(s)) == Lower(LastSegment(s))
  {
    if s != [] {
      var n := |s| - 1;
      var init, c := s[..n], s[n];
      assert s == init + [c];
      LowerConcat(init, [c]);
      LowerSingle(c);
      LowerCharKeeps(c);
      if c != '/' {
        LowerLastSegment(init);
        LastSegmentSnoc(init, c);
        LastSegmentSnoc(Lower(init), LowerChar(c));
        LowerConcat(LastSegment(init), [c]);
      } else {
        assert Lower(s)[n] == '/';
      }
    }
  }
}
