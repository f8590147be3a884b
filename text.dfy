/**
 * The Go standard-library string and number primitives the package calls
 * (strings.IndexRune, TrimLeft, TrimRight, Fields, Join, Split, EqualFold,
 * strconv.Itoa and strconv.Atoi), written as functions over `string`.
 *
 * A Go string is a sequence of bytes; here it is a sequence of characters, and
 * every offset is a character offset. For ASCII text the two agree.
 */
module Text {
  import opened Wrappers

  // ---------------------------------------------------------------------------
  // Character classes

  /** ASCII white space, as strings.Fields separates on it. */
  predicate IsSpace(c: char) {
    c == ' ' || ('\t' <= c <= '\r')
  }

  predicate IsDigitChar(c: char) {
    '0' <= c <= '9'
  }

  /** Every character is a decimal digit; vacuously true of "". */
  predicate AllDigits(s: string) {
    forall i :: 0 <= i < |s| ==> IsDigitChar(s[i])
  }

  /** A character allowed in an identifier: ASCII letter, digit or hyphen. */
  predicate IsIdentChar(c: char) {
    ('a' <= c <= 'z') || ('A' <= c <= 'Z') || IsDigitChar(c) || c == '-'
  }

  // ---------------------------------------------------------------------------
  // Case folding (strings.EqualFold, restricted to ASCII)

  function Lower(c: char): (l: char)
    ensures 'A' <= c <= 'Z' ==> 'a' <= l <= 'z'
    ensures !('A' <= c <= 'Z') ==> l == c
  {
    if 'A' <= c <= 'Z' then (c as int + 32) as char else c
  }

  function LowerStr(s: string): (l: string)
    ensures |l| == |s|
  {
    seq(|s|, i requires 0 <= i < |s| => Lower(s[i]))
  }

  /** ASCII case-insensitive equality. */
  predicate EqualFold(a: string, b: string) {
    LowerStr(a) == LowerStr(b)
  }

  /** EqualFold compares character by character. */
  lemma EqualFoldByChars(a: string, b: string)
    ensures EqualFold(a, b) <==> |a| == |b| && forall i :: 0 <= i < |a| ==> Lower(a[i]) == Lower(b[i])
  {
    if |a| == |b| && forall i :: 0 <= i < |a| ==> Lower(a[i]) == Lower(b[i]) {
      assert LowerStr(a) == LowerStr(b);
    }
    if EqualFold(a, b) {
      forall i | 0 <= i < |a| ensures Lower(a[i]) == Lower(b[i]) {
        assert LowerStr(a)[i] == LowerStr(b)[i];
      }
    }
  }

  // ---------------------------------------------------------------------------
  // Searching and trimming

  /** Offset of the first `c` in `s`, or -1 when there is none. */
  function IndexRune(s: string, c: char): (r: int)
    ensures -1 <= r < |s|
    ensures r == -1 <==> c !in s
    ensures r >= 0 ==> s[r] == c && c !in s[..r]
  {
    if s == [] then -1
    else if s[0] == c then 0
    else
      var k := IndexRune(s[1..], c);
      if k == -1 then -1
      else
        assert s[..k + 1] == [s[0]] + s[1..][..k];
        k + 1
  }

  /** `s` with every leading character that occurs in `cutset` removed. */
  function TrimLeft(s: string, cutset: string): (t: string)
    ensures t <= s || (|t| <= |s| && t == s[|s| - |t|..])
    ensures t != [] ==> t[0] !in cutset
  {
    if s != [] && s[0] in cutset then TrimLeft(s[1..], cutset) else s
  }

  /** `s` with every trailing character that occurs in `cutset` removed. */
  function TrimRight(s: string, cutset: string): (t: string)
    ensures t <= s
    ensures t != [] ==> t[|t| - 1] !in cutset
  {
    if s != [] && s[|s| - 1] in cutset then TrimRight(s[..|s| - 1], cutset) else s
  }

  /** Trimming removes a prefix made of cut characters and stops at the first other one. */
  lemma {:induction false} TrimLeftPrefix(p: string, t: string, cutset: string)
    requires forall i :: 0 <= i < |p| ==> p[i] in cutset
    requires t == [] || t[0] !in cutset
    ensures TrimLeft(p + t, cutset) == t
    decreases |p|
  {
    if p == [] {
      assert p + t == t;
    } else {
      assert (p + t)[1..] == p[1..] + t;
      TrimLeftPrefix(p[1..], t, cutset);
    }
  }

  /** Trimming removes a suffix made of cut characters and stops at the last other one. */
  lemma {:induction false} TrimRightSuffix(t: string, p: string, cutset: string)
    requires forall i :: 0 <= i < |p| ==> p[i] in cutset
    requires t == [] || t[|t| - 1] !in cutset
    ensures TrimRight(t + p, cutset) == t
    decreases |p|
  {
    if p == [] {
      assert t + p == t;
    } else {
      assert (t + p)[..|t + p| - 1] == t + p[..|p| - 1];
      TrimRightSuffix(t, p[..|p| - 1], cutset);
    }
  }

  // ---------------------------------------------------------------------------
  // Fields, Join and Split

  /** A field as strings.Fields returns it: non-empty, without white space. */
  predicate IsField(f: string) {
    f != [] && forall i :: 0 <= i < |f| ==> !IsSpace(f[i])
  }

  /** The longest prefix of `s` free of white space. */
  function Word(s: string): (w: string)
    ensures w <= s
    ensures forall i :: 0 <= i < |w| ==> !IsSpace(w[i])
    ensures |w| < |s| ==> IsSpace(s[|w|])
  {
    if s == [] || IsSpace(s[0]) then [] else [s[0]] + Word(s[1..])
  }

  /** The maximal runs of non-space characters of `s`, in order. */
  function Fields(s: string): (fs: seq<string>)
    ensures forall i :: 0 <= i < |fs| ==> IsField(fs[i])
    decreases |s|
  {
    if s == [] then []
    else if IsSpace(s[0]) then Fields(s[1..])
    else
      var w := Word(s);
      [w] + Fields(s[|w|..])
  }

  function Join(xs: seq<string>, sep: string): string {
    if |xs| == 0 then ""
    else if |xs| == 1 then xs[0]
    else xs[0] + sep + Join(xs[1..], sep)
  }

  /** The pieces of `s` between occurrences of `sep`; never empty, as in Go. */
  function Split(s: string, sep: char): (parts: seq<string>)
    ensures |parts| >= 1
    decreases |s|
  {
    var i := IndexRune(s, sep);
    if i == -1 then [s] else [s[..i]] + Split(s[i + 1..], sep)
  }

  lemma {:induction false} WordOfField(f: string, rest: string)
    requires forall i :: 0 <= i < |f| ==> !IsSpace(f[i])
    requires rest == [] || IsSpace(rest[0])
    ensures Word(f + rest) == f
    decreases |f|
  {
    if f != [] {
      assert (f + rest)[1..] == f[1..] + rest;
      WordOfField(f[1..], rest);
    }
  }

  /** A join of non-empty pieces starts with the first piece's first character and ends with the last piece's last. */
  lemma {:induction false} JoinEnds(xs: seq<string>, sep: string)
    requires |xs| >= 1 && forall i :: 0 <= i < |xs| ==> xs[i] != []
    ensures Join(xs, sep) != []
    ensures Join(xs, sep)[0] == xs[0][0]
    ensures var j := Join(xs, sep); j[|j| - 1] == xs[|xs| - 1][|xs[|xs| - 1]| - 1]
    decreases |xs|
  {
    if |xs| > 1 {
      JoinEnds(xs[1..], sep);
    }
  }

  /** Every character of a join comes from a piece or from the separator. */
  lemma {:induction false} JoinChars(xs: seq<string>, sep: string, p: char -> bool)
    requires forall i, c :: 0 <= i < |xs| && c in xs[i] ==> p(c)
    requires forall c :: c in sep ==> p(c)
    ensures forall c :: c in Join(xs, sep) ==> p(c)
    decreases |xs|
  {
    if |xs| > 1 {
      JoinChars(xs[1..], sep, p);
      forall c | c in xs[0] ensures p(c) {
        assert c in xs[0];
      }
    }
  }

  /** Splitting a space-joined list of fields gives the fields back. */
  lemma {:induction false} FieldsOfJoin(fs: seq<string>)
    requires forall i :: 0 <= i < |fs| ==> IsField(fs[i])
    ensures Fields(Join(fs, " ")) == fs
    decreases |fs|
  {
    if |fs| == 1 {
      WordOfField(fs[0], []);
      assert fs[0] + [] == fs[0];
    } else if |fs| > 1 {
      var rest := Join(fs[1..], " ");
      var s := fs[0] + " " + rest;
      assert s == fs[0] + (" " + rest);
      WordOfField(fs[0], " " + rest);
      assert s[|fs[0]|..] == " " + rest;
      assert (" " + rest)[1..] == rest;
      FieldsOfJoin(fs[1..]);
      assert fs == [fs[0]] + fs[1..];
    }
  }

  lemma IndexRuneAfter(x: string, c: char, rest: string)
    requires c !in x
    ensures IndexRune(x + [c] + rest, c) == |x|
    ensures (x + [c] + rest)[..|x|] == x && (x + [c] + rest)[|x| + 1..] == rest
  {
    var s := x + [c] + rest;
    assert s[|x|] == c;
  }

  /** Splitting a `sep`-joined list of `sep`-free pieces gives the pieces back. */
  lemma {:induction false} SplitOfJoin(xs: seq<string>, sep: char)
    requires |xs| >= 1
    requires forall i :: 0 <= i < |xs| ==> sep !in xs[i]
    ensures Split(Join(xs, [sep]), sep) == xs
    decreases |xs|
  {
    if |xs| > 1 {
      var rest := Join(xs[1..], [sep]);
      IndexRuneAfter(xs[0], sep, rest);
      SplitOfJoin(xs[1..], sep);
      assert xs == [xs[0]] + xs[1..];
    }
  }

  // ---------------------------------------------------------------------------
  // Decimal conversion (strconv.Itoa, strconv.Atoi; integers are unbounded)

  function DigitValue(c: char): (d: nat)
    requires IsDigitChar(c)
    ensures d < 10
  {
    c as int - '0' as int
  }

  function DigitChar(d: nat): (c: char)
    requires d < 10
    ensures IsDigitChar(c) && DigitValue(c) == d
  {
    ('0' as int + d) as char
  }

  /** The value of a string of decimal digits; 0 for "". */
  function DecimalValue(s: string): nat
    requires AllDigits(s)
  {
    if s == [] then 0 else 10 * DecimalValue(s[..|s| - 1]) + DigitValue(s[|s| - 1])
  }

  /** strconv.Itoa of a non-negative number: its shortest decimal rendering. */
  function Itoa(n: nat): (s: string)
    ensures s != [] && AllDigits(s)
  {
    if n < 10 then [DigitChar(n)] else Itoa(n / 10) + [DigitChar(n % 10)]
  }

  /** strconv.Itoa of any int: a minus sign before the digits of a negative number. */
  function IntToString(i: int): (s: string) {
    if i < 0 then "-" + Itoa(-i) else Itoa(i)
  }

  /** strconv.Atoi: an optional sign followed by at least one digit, or failure. */
  function Atoi(s: string): Option<int> {
    if s != [] && (s[0] == '+' || s[0] == '-') then
      if s[1..] != [] && AllDigits(s[1..]) then
        var v: int := DecimalValue(s[1..]);
        Some(if s[0] == '-' then -v else v)
      else None
    else if s != [] && AllDigits(s) then Some(DecimalValue(s))
    else None
  }

  lemma {:induction false} DecimalValueOfItoa(n: nat)
    ensures DecimalValue(Itoa(n)) == n
  {
    if n >= 10 {
      DecimalValueOfItoa(n / 10);
      var s := Itoa(n);
      assert s[..|s| - 1] == Itoa(n / 10);
    }
  }

  /** Atoi inverts Itoa on every int. */
  lemma AtoiOfIntToString(i: int)
    ensures Atoi(IntToString(i)) == Some(i)
  {
    if i < 0 {
      DecimalValueOfItoa(-i);
      assert IntToString(i)[1..] == Itoa(-i);
    } else {
      DecimalValueOfItoa(i);
    }
  }

  /** Atoi of a non-empty digit string is its decimal value. */
  lemma AtoiOfDigits(s: string)
    requires s != [] && AllDigits(s)
    ensures Atoi(s) == Some(DecimalValue(s))
  {
    assert IsDigitChar(s[0]);
  }

  /** An Atoi result is negative only when the text starts with '-'. */
  lemma AtoiSign(s: string)
    requires Atoi(s).Some? && Atoi(s).value < 0
    ensures s[0] == '-'
  {
  }
}
