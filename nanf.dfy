/**
 * One arc in NameAndNumberForm (nanf.go): an optional identifier and an
 * unsigned number, rendered `identifier(number)` or as the bare number.
 */
module NameAndNumber {
  import opened Wrappers
  import opened Text
  import Misc

  /** Go's `uint` is modelled as an unbounded `nat`. */
  datatype NameAndNumberForm = NameAndNumberForm(identifier: string, primaryIdentifier: nat)

  /** Why parsing or construction failed; `SliceOutOfRange` stands for a Go runtime panic. */
  datatype NaNFError =
    | NoContent
    | NoClosingParen
    | NoOpeningParen
    | BadPrimaryIdentifier(digits: string)
    | BadLeadingChar(at: nat)
    | BadChar(at: nat)
    | TrailingHyphen(at: nat)
    | SliceOutOfRange
    | NegativeNumber
    | UnsupportedType

  /** The (pointer, error) pair the Go functions return; both halves may be set at once. */
  datatype Outcome = Outcome(nanf: Option<NameAndNumberForm>, err: Option<NaNFError>)

  /** The dynamic types NewNameAndNumberForm dispatches on. */
  datatype Input = StrInput(s: string) | UintInput(u: nat) | IntInput(i: int) | OtherInput

  // ---------------------------------------------------------------------------
  // IsZero, and the bitwise operators on non-negative integers it relies on

  function BitAnd(a: nat, b: nat): nat
    decreases a
  {
    if a == 0 || b == 0 then 0
    else 2 * BitAnd(a / 2, b / 2) + (if a % 2 == 1 && b % 2 == 1 then 1 else 0)
  }

  function BitOr(a: nat, b: nat): nat
    decreases a
  {
    if a == 0 then b
    else if b == 0 then a
    else 2 * BitOr(a / 2, b / 2) + (if a % 2 == 1 || b % 2 == 1 then 1 else 0)
  }

  /**
   * IsZero as written: `len(identifier) & primaryIdentifier == 0`. It holds
   * whenever either half is empty, and for a one-character identifier exactly
   * when the number is even.
   */
  function IsZero(n: NameAndNumberForm): (r: bool)
    ensures |n.identifier| == 0 || n.primaryIdentifier == 0 ==> r
    ensures |n.identifier| == 1 ==> (r <==> n.primaryIdentifier % 2 == 0)
  {
    BitAnd(|n.identifier|, n.primaryIdentifier) == 0
  }

  /** IsZero as evidently intended: `len(identifier) | primaryIdentifier == 0`. */
  predicate IsZeroIntended(n: NameAndNumberForm) {
    BitOr(|n.identifier|, n.primaryIdentifier) == 0
  }

  lemma {:induction false} BitOrZero(a: nat, b: nat)
    ensures BitOr(a, b) == 0 <==> a == 0 && b == 0
    decreases a
  {
    if a != 0 && b != 0 {
      BitOrZero(a / 2, b / 2);
    }
  }

  /** The intended IsZero holds exactly of the zero value. */
  lemma IsZeroIntendedIff(n: NameAndNumberForm)
    ensures IsZeroIntended(n) <==> n == NameAndNumberForm("", 0)
  {
    BitOrZero(|n.identifier|, n.primaryIdentifier);
  }

  /** The bitwise AND reports a populated arc `ab(1)` (and any bare number) as zero. */
  lemma IsZeroAsWrittenCounterexample()
    ensures IsZero(NameAndNumberForm("ab", 1))
    ensures IsZero(NameAndNumberForm("", 5))
    ensures !IsZeroIntended(NameAndNumberForm("ab", 1))
  {
    IsZeroIntendedIff(NameAndNumberForm("ab", 1));
  }

  // ---------------------------------------------------------------------------
  // Rendering and equality

  /** `identifier(number)`, or the bare number when the identifier is empty. */
  function String(n: NameAndNumberForm): (r: string)
    ensures |n.identifier| == 0 ==> AllDigits(r) && r != [] && DecimalValue(r) == n.primaryIdentifier
    ensures |n.identifier| > 0 ==>
      |r| > |n.identifier| + 2 && r[..|n.identifier|] == n.identifier &&
      r[|n.identifier|] == '(' && r[|r| - 1] == ')' &&
      AllDigits(r[|n.identifier| + 1..|r| - 1]) &&
      DecimalValue(r[|n.identifier| + 1..|r| - 1]) == n.primaryIdentifier
  {
    var d := Itoa(n.primaryIdentifier);
    DecimalValueOfItoa(n.primaryIdentifier);
    if |n.identifier| == 0 then d
    else
      var r := n.identifier + "(" + d + ")";
      assert r[|n.identifier| + 1..|r| - 1] == d;
      r
  }

  /** Identifiers equal up to ASCII case, and numbers equal. */
  function Equal(a: NameAndNumberForm, b: NameAndNumberForm): (r: bool)
    ensures r <==>
      a.primaryIdentifier == b.primaryIdentifier && |a.identifier| == |b.identifier| &&
      forall i :: 0 <= i < |a.identifier| ==> Lower(a.identifier[i]) == Lower(b.identifier[i])
  {
    EqualFoldByChars(a.identifier, b.identifier);
    EqualFold(a.identifier, b.identifier) && a.primaryIdentifier == b.primaryIdentifier
  }

  /** Equal is an equivalence relation. */
  lemma EqualIsEquivalence(a: NameAndNumberForm, b: NameAndNumberForm, c: NameAndNumberForm)
    ensures Equal(a, a)
    ensures Equal(a, b) ==> Equal(b, a)
    ensures Equal(a, b) && Equal(b, c) ==> Equal(a, c)
  {
  }

  // ---------------------------------------------------------------------------
  // parseNaNFstr

  /** The identifier grammar: a lower-case letter, then letters, digits and hyphens, no final hyphen. */
  predicate IdentifierGrammar(id: string) {
    id != [] && 'a' <= id[0] <= 'z' && id[|id| - 1] != '-' &&
    forall i :: 0 <= i < |id| ==> IsIdentChar(id[i])
  }

  /** The first character error among offsets `c` .. `end` - 1 of `x`, scanning as nanf.go:62-86 does. */
  function ScanIdentifier(x: string, c: nat, end: nat): Option<NaNFError>
    requires end <= |x|
    decreases end - c
  {
    if c >= end then None
    else if c == 0 && !('a' <= x[0] <= 'z') then Some(BadLeadingChar(0))
    else if !IsIdentChar(x[c]) then Some(BadChar(c))
    else ScanIdentifier(x, c + 1, end)
  }

  /**
   * What parseNaNFstr returns. After the parentheses are found a value is
   * allocated, so a later error comes back with a non-nil value; the scan
   * covers only `x[:idx-1]`, and `idx == 0` makes that slice panic.
   */
  function ParseNaNF(x: string): Outcome {
    if |x| == 0 then Outcome(None, Some(NoContent))
    else if x[|x| - 1] != ')' then Outcome(None, Some(NoClosingParen))
    else
      var idx := IndexRune(x, '(');
      if idx == -1 then Outcome(None, Some(NoOpeningParen))
      else
        var n := x[idx + 1..|x| - 1];
        if !AllDigits(n) then Outcome(Some(NameAndNumberForm("", 0)), Some(BadPrimaryIdentifier(n)))
        else
          var num := DecimalValue(n);
          if idx == 0 then Outcome(None, Some(SliceOutOfRange))
          else match ScanIdentifier(x, 0, idx - 1)
            case Some(e) => Outcome(Some(NameAndNumberForm("", num)), Some(e))
            case None => Outcome(Some(NameAndNumberForm(x[..idx], num)), None)
  }

  /** parseNaNFstr, with its character loop. */
  method ParseNaNFStr(x: string) returns (nanf: Option<NameAndNumberForm>, err: Option<NaNFError>)
    ensures Outcome(nanf, err) == ParseNaNF(x)
  {
    nanf, err := None, None;
    if |x| == 0 {
      err := Some(NoContent);
      return;
    } else if x[|x| - 1] != ')' {
      err := Some(NoClosingParen);
      return;
    }
    var idx := IndexRune(x, '(');
    if idx == -1 {
      err := Some(NoOpeningParen);
      return;
    }
    var v := NameAndNumberForm("", 0);
    nanf := Some(v);

    var n := x[idx + 1..|x| - 1];
    var digits := Misc.IsDigit(n);
    if !digits {
      err := Some(BadPrimaryIdentifier(n));
      return;
    }
    v := v.(primaryIdentifier := DecimalValue(n));
    nanf := Some(v);

    if idx == 0 {
      // x[:idx-1] is out of range: Go panics and returns nothing
      nanf, err := None, Some(SliceOutOfRange);
      return;
    }
    var c: nat := 0;
    while c < idx - 1
      invariant 0 <= c <= idx - 1
      invariant err.None?
      invariant ScanIdentifier(x, c, idx - 1) == ScanIdentifier(x, 0, idx - 1)
    {
      var ch := x[c];
      if c == 0 && !('a' <= ch <= 'z') {
        err := Some(BadLeadingChar(c));
        return;
      }
      if !IsIdentChar(ch) {
        err := Some(BadChar(c));
        return;
      }
      if c == idx - 1 && ch == '-' {
        // never reached: the loop stops at idx - 2 (and Go does not return here either)
        err := Some(TrailingHyphen(c));
      }
      c := c + 1;
    }
    v := v.(identifier := x[..idx]);
    nanf := Some(v);
  }

  lemma {:induction false} ScanIdentifierNone(x: string, c: nat, end: nat)
    requires end <= |x|
    ensures ScanIdentifier(x, c, end).None? <==>
      (c < end && c == 0 ==> 'a' <= x[0] <= 'z') &&
      forall i :: c <= i < end ==> IsIdentChar(x[i])
    decreases end - c
  {
    if c < end {
      ScanIdentifierNone(x, c + 1, end);
    }
  }

  /**
   * What a successful parse means: the text ends in ')', the identifier is the
   * text before the first '(', the number is the value of the digits between
   * that '(' and the final ')', and every scanned character passed the grammar.
   */
  lemma ParseNaNFSuccess(x: string)
    requires ParseNaNF(x).err.None?
    ensures |x| > 0 && x[|x| - 1] == ')'
    ensures var idx := IndexRune(x, '(');
      1 <= idx < |x| - 1 &&
      AllDigits(x[idx + 1..|x| - 1]) &&
      ParseNaNF(x).nanf == Some(NameAndNumberForm(x[..idx], DecimalValue(x[idx + 1..|x| - 1]))) &&
      (idx >= 2 ==> 'a' <= x[0] <= 'z') &&
      forall i :: 0 <= i < idx - 1 ==> IsIdentChar(x[i])
  {
    var idx := IndexRune(x, '(');
    assert |x| > 0 && x[|x| - 1] == ')' && idx != -1;
    var n := x[idx + 1..|x| - 1];
    assert AllDigits(n) && idx != 0;
    assert ScanIdentifier(x, 0, idx - 1).None?;
    assert ParseNaNF(x).nanf == Some(NameAndNumberForm(x[..idx], DecimalValue(n)));
    ScanIdentifierNone(x, 0, idx - 1);
  }

  /** Every failure of the grammar is reported. */
  lemma ParseNaNFErrors(x: string)
    ensures x == [] ==> ParseNaNF(x).err == Some(NoContent)
    ensures x != [] && x[|x| - 1] != ')' ==> ParseNaNF(x).err == Some(NoClosingParen)
    ensures x != [] && x[|x| - 1] == ')' && '(' !in x ==> ParseNaNF(x).err == Some(NoOpeningParen)
    ensures (x != [] && x[|x| - 1] == ')' && '(' in x &&
             !AllDigits(x[IndexRune(x, '(') + 1..|x| - 1])) ==> ParseNaNF(x).err.Some?
    ensures forall c :: 0 <= c < IndexRune(x, '(') - 1 && !IsIdentChar(x[c]) ==> ParseNaNF(x).err.Some?
    ensures 2 <= IndexRune(x, '(') && !('a' <= x[0] <= 'z') ==> ParseNaNF(x).err.Some?
  {
    if ParseNaNF(x).err.None? {
      ParseNaNFSuccess(x);
    }
  }

  /** Rendering an arc whose identifier follows the grammar and parsing it back gives the same arc. */
  lemma ParseOfString(n: NameAndNumberForm)
    requires IdentifierGrammar(n.identifier)
    ensures ParseNaNF(String(n)) == Outcome(Some(n), None)
    ensures Equal(ParseNaNF(String(n)).nanf.value, n)
  {
    var id := n.identifier;
    var d := Itoa(n.primaryIdentifier);
    var x := String(n);
    assert x == id + ['('] + (d + ")");
    IndexRuneAfter(id, '(', d + ")");
    assert x[|id| + 1..|x| - 1] == d;
    DecimalValueOfItoa(n.primaryIdentifier);
    ScanIdentifierNone(x, 0, |id| - 1);
  }

  // ---------------------------------------------------------------------------
  // NewNameAndNumberForm

  function InputRank(x: Input): nat {
    if x.UintInput? then 0 else 1
  }

  /** NewNameAndNumberForm: dispatch on the dynamic type of its argument. */
  function NewNameAndNumberForm(x: Input): (r: Outcome)
    ensures r.err.None? ==> r.nanf.Some?
    ensures !x.StrInput? && r.nanf.Some? ==> r.nanf.value.identifier == "" && r.err.None?
    decreases InputRank(x)
  {
    match x
    case StrInput(s) =>
      if !AllDigits(s) then ParseNaNF(s)
      else NewNameAndNumberForm(UintInput(DecimalValue(s)))
    case UintInput(u) => Outcome(Some(NameAndNumberForm("", u)), None)
    case IntInput(i) =>
      if i < 0 then Outcome(None, Some(NegativeNumber))
      else NewNameAndNumberForm(UintInput(i))
    case OtherInput => Outcome(None, Some(UnsupportedType))
  }

  /**
   * A digit string, an unsigned or a non-negative int gives an arc with no
   * identifier and that number ("" gives 0); a negative int or another type fails.
   */
  lemma NewNameAndNumberFormCases(x: Input)
    ensures x.StrInput? && AllDigits(x.s) ==>
      NewNameAndNumberForm(x) == Outcome(Some(NameAndNumberForm("", DecimalValue(x.s))), None)
    ensures x.StrInput? && !AllDigits(x.s) ==> NewNameAndNumberForm(x) == ParseNaNF(x.s)
    ensures x.UintInput? ==> NewNameAndNumberForm(x) == Outcome(Some(NameAndNumberForm("", x.u)), None)
    ensures x.IntInput? && x.i >= 0 ==> NewNameAndNumberForm(x) == Outcome(Some(NameAndNumberForm("", x.i)), None)
    ensures x.IntInput? && x.i < 0 ==> NewNameAndNumberForm(x) == Outcome(None, Some(NegativeNumber))
    ensures x.OtherInput? ==> NewNameAndNumberForm(x) == Outcome(None, Some(UnsupportedType))
  {
  }

  /** Constructing from an arc's rendering gives that arc back, with or without an identifier. */
  lemma NewOfString(n: NameAndNumberForm)
    requires n.identifier == [] || IdentifierGrammar(n.identifier)
    ensures NewNameAndNumberForm(StrInput(String(n))) == Outcome(Some(n), None)
  {
    if n.identifier == [] {
      DecimalValueOfItoa(n.primaryIdentifier);
    } else {
      ParseOfString(n);
      var x := String(n);
      assert x[|n.identifier|] == '(';
    }
  }

  // ---------------------------------------------------------------------------
  // Inputs on which the implementation departs from the identifier grammar

  /** A one-character identifier is never scanned, so an upper-case one is accepted. */
  lemma SingleCharIdentifierUnchecked()
    ensures ParseNaNF("A(1)") == Outcome(Some(NameAndNumberForm("A", 1)), None)
    ensures !IdentifierGrammar("A")
  {
    var x := "A(1)";
    assert IndexRune(x, '(') == 1 by { IndexRuneAfter("A", '(', "1)"); }
    assert x[2..3] == "1";
    assert DecimalValue("1") == 1 by { assert "1"[..0] == ""; }
    assert x[..1] == "A";
  }

  /** The last identifier character is never scanned, so a trailing hyphen is accepted. */
  lemma TrailingHyphenAccepted()
    ensures ParseNaNF("ab-(1)") == Outcome(Some(NameAndNumberForm("ab-", 1)), None)
    ensures !IdentifierGrammar("ab-")
  {
    var id, ds := "ab-", "1";
    var x := id + "(" + ds + ")";
    assert x == "ab-(1)";
    assert DecimalValue(ds) == 1 by { assert ds[..0] == ""; }
    assert ScanIdentifier(x, 0, 2) == None by {
      assert x[0] == 'a' && x[1] == 'b';
      ScanIdentifierNone(x, 0, 2);
    }
    ParseNaNFOfLabel(id, ds);
  }

  /** `id(ds)` parses to `id` and the value of `ds` once the scanned part of `id` passes. */
  lemma ParseNaNFOfLabel(id: string, ds: string)
    requires id != [] && '(' !in id && AllDigits(ds)
    requires ScanIdentifier(id + "(" + ds + ")", 0, |id| - 1) == None
    ensures ParseNaNF(id + "(" + ds + ")") == Outcome(Some(NameAndNumberForm(id, DecimalValue(ds))), None)
  {
    var x := id + "(" + ds + ")";
    assert x == id + ['('] + (ds + ")");
    IndexRuneAfter(id, '(', ds + ")");
    assert x[|id| + 1..|x| - 1] == ds;
    assert x[..|id|] == id;
  }

  /** Empty parentheses read as 0. */
  lemma EmptyNumberIsZero()
    ensures ParseNaNF("foo()") == Outcome(Some(NameAndNumberForm("foo", 0)), None)
  {
    assert IndexRune("foo()", '(') == 3 by { IndexRuneAfter("foo", '(', ")"); }
    assert "foo()"[4..4] == "";
    assert "foo()"[..3] == "foo";
    ScanIdentifierNone("foo()", 0, 2);
  }

  /** A bad number is reported together with a non-nil, zero value. */
  lemma BadNumberKeepsValue()
    ensures ParseNaNF("foo(x)") == Outcome(Some(NameAndNumberForm("", 0)), Some(BadPrimaryIdentifier("x")))
  {
    assert IndexRune("foo(x)", '(') == 3 by { IndexRuneAfter("foo", '(', "x)"); }
    assert "foo(x)"[4..5] == "x";
  }

  /** An opening parenthesis at offset 0 makes the identifier slice panic. */
  lemma LeadingParenPanics()
    ensures ParseNaNF("(1)") == Outcome(None, Some(SliceOutOfRange))
  {
    assert IndexRune("(1)", '(') == 0;
    assert "(1)"[1..2] == "1";
  }
}
