/**
 * The package's small helpers (misc.go): digit test, case-insensitive
 * membership and slice equality. Each is a loop with early return over
 * read-only input, proved against a specification predicate.
 */
module Misc {
  import opened Text

  /** `s` occurs in `xs` up to ASCII case, and `s` is not empty. */
  predicate InSliceFold(s: string, xs: seq<string>) {
    s != [] && exists i :: 0 <= i < |xs| && EqualFold(xs[i], s)
  }

  /**
   * The slices have the same, non-zero length and agree at every index.
   * Two empty slices are NOT equal under this definition.
   */
  predicate SameNonEmpty<T(==)>(a: seq<T>, b: seq<T>) {
    |a| == |b| && |a| != 0 && forall i :: 0 <= i < |a| ==> a[i] == b[i]
  }

  /** isDigit: every character of `s` is '0'..'9'. */
  method IsDigit(s: string) returns (b: bool)
    ensures b == AllDigits(s)
    ensures s == [] ==> b
  {
    var i := 0;
    while i < |s|
      invariant 0 <= i <= |s|
      invariant forall j :: 0 <= j < i ==> IsDigitChar(s[j])
    {
      if !('0' <= s[i] <= '9') {
        return false;
      }
      i := i + 1;
    }
    return true;
  }

  /** strInSlice: case-insensitive membership; false for an empty string or slice. */
  method StrInSlice(s: string, xs: seq<string>) returns (b: bool)
    ensures b == InSliceFold(s, xs)
    ensures s == [] || xs == [] ==> !b
  {
    if |s| == 0 || |xs| == 0 {
      return false;
    }
    var i := 0;
    while i < |xs|
      invariant 0 <= i <= |xs|
      invariant forall j :: 0 <= j < i ==> !EqualFold(xs[j], s)
    {
      if EqualFold(xs[i], s) {
        return true;
      }
      i := i + 1;
    }
    return false;
  }

  /**
   * intSliceEqual and strSliceEqual, which differ only in their element type:
   * false when both are empty or the lengths differ, else element-wise equality.
   */
  method SliceEqual<T(==)>(a: seq<T>, b: seq<T>) returns (equal: bool)
    ensures equal <==> SameNonEmpty(a, b)
    ensures equal <==> a == b && a != []
  {
    if (|a| == 0 && |b| == 0) || |a| != |b| {
      return false;
    }
    var i := 0;
    while i < |a|
      invariant 0 <= i <= |a|
      invariant forall j :: 0 <= j < i ==> a[j] == b[j]
    {
      if a[i] != b[i] {
        return false;
      }
      i := i + 1;
    }
    return true;
  }

  /** Slice equality does not depend on the order of its arguments. */
  lemma SameNonEmptySymmetric<T>(a: seq<T>, b: seq<T>)
    ensures SameNonEmpty(a, b) == SameNonEmpty(b, a)
  {
  }

  /** Membership is insensitive to the case of the probe. */
  lemma {:induction false} InSliceFoldCase(s: string, t: string, xs: seq<string>)
    requires EqualFold(s, t)
    ensures InSliceFold(s, xs) == InSliceFold(t, xs)
  {
    assert |s| == |LowerStr(s)| == |LowerStr(t)| == |t|;
  }
}
