/**
 * The ObjectIdentifier value (oid.go): the NameAndNumberForm fields of an
 * OID, its arcs as integers and its alternate names; the parser that builds
 * one from `{ name(n) ... }` text, its renderings, its validity check and the
 * type-dispatched equality.
 */
module Oid {
  import opened Wrappers
  import opened Text
  import Misc

  /**
   * Why NewObjectIdentifier failed; `SliceOutOfRange` and `IndexOutOfRange`
   * stand for Go runtime panics.
   */
  datatype OidError =
    | TooShort
    | BadIdentifier(field: string)
    | BadIdentifierChar(field: string, at: nat)
    | BadNumber(field: string)
    | SliceOutOfRange(field: string)
    | IndexOutOfRange(field: string)
    | Invalid

  /**
   * The dynamic types Equal accepts: `[]int` and `asn1.ObjectIdentifier`
   * (both IntsTerm), `string`, `[]string`, and anything else.
   */
  datatype Term = IntsTerm(ints: seq<int>) | StringTerm(s: string) | StringsTerm(strs: seq<string>) | OtherTerm

  /** The two parallel lists a successful parse produces. */
  datatype Arcs = Arcs(nanf: seq<string>, ints: seq<int>)

  // ---------------------------------------------------------------------------
  // Renderings

  function Decimals(ints: seq<int>): (ds: seq<string>)
    ensures |ds| == |ints|
    ensures forall i :: 0 <= i < |ints| ==> ds[i] == IntToString(ints[i])
  {
    seq(|ints|, i requires 0 <= i < |ints| => IntToString(ints[i]))
  }

  /** The dotted form, asn1.ObjectIdentifier's String: the arcs in decimal joined by '.'. */
  function DotNotation(ints: seq<int>): (r: string)
    ensures r == [] <==> ints == []
    ensures forall c :: c in r ==> DotChar(c)
  {
    JoinOfDecimals(ints);
    Join(Decimals(ints), ".")
  }

  lemma JoinOfDecimals(ints: seq<int>)
    ensures Join(Decimals(ints), ".") == [] <==> ints == []
    ensures forall c :: c in Join(Decimals(ints), ".") ==> DotChar(c)
  {
    var ds := Decimals(ints);
    forall i, c | 0 <= i < |ds| && c in ds[i] ensures DotChar(c) {
      var k :| 0 <= k < |ds[i]| && ds[i][k] == c;
      if ints[i] < 0 {
        assert ds[i] == "-" + Itoa(-ints[i]);
        if k > 0 { assert c == Itoa(-ints[i])[k - 1]; }
      }
    }
    JoinChars(ds, ".", DotChar);
    if ints != [] {
      JoinEnds(ds, ".");
    }
  }

  /** The characters of a dotted form: digits, the '-' of a negative arc, and '.'. */
  predicate DotChar(c: char) {
    IsDigitChar(c) || c == '-' || c == '.'
  }

  /** String: the fields joined by single spaces between "{ " and " }". */
  function NameForm(nanf: seq<string>): string {
    "{ " + Join(nanf, " ") + " }"
  }

  /**
   * NameAndNumberForm: the text of the last field before its first '(' (empty
   * when it has none) and the last arc in decimal; a pair of empty strings
   * when there are no arcs.
   */
  function LastArc(nanf: seq<string>, ints: seq<int>): (r: (string, string))
    ensures nanf == [] || ints == [] ==> r == ("", "")
    ensures nanf != [] && ints != [] ==>
      r.1 == IntToString(ints[|ints| - 1]) &&
      r.0 <= nanf[|nanf| - 1] && '(' !in r.0 &&
      ('(' in nanf[|nanf| - 1] ==> nanf[|nanf| - 1][|r.0|] == '(')
    ensures nanf != [] && ints != [] && '(' !in nanf[|nanf| - 1] ==> r.0 == ""
  {
    if |nanf| == 0 || |ints| == 0 then ("", "")
    else
      var number := IntToString(ints[|ints| - 1]);
      var name := nanf[|nanf| - 1];
      var idx := IndexRune(name, '(');
      if idx == -1 then ("", number) else (name[..idx], number)
  }

  // ---------------------------------------------------------------------------
  // Validity

  /**
   * Valid: as many fields as arcs, at least one arc, no negative arc, and a
   * first arc of 0, 1 or 2. (Go reads `ints[0]` without a length check and
   * panics on an empty OID; that case is invalid here.)
   */
  predicate ValidArcs(nanf: seq<string>, ints: seq<int>) {
    |nanf| == |ints| && |ints| > 0 &&
    (forall i :: 0 <= i < |ints| ==> ints[i] >= 0) &&
    ints[0] <= 2
  }

  // ---------------------------------------------------------------------------
  // Parsing one field of NewObjectIdentifier's input

  /** Atoi with its error ignored, as `num, _ := strconv.Atoi(...)` does. */
  function AtoiOrZero(s: string): int {
    match Atoi(s)
    case Some(v) => v
    case None => 0
  }

  /** The first offset in `c` .. `upto` - 1 whose character is not a letter, digit or hyphen. */
  function FirstBadIdentChar(f: string, c: nat, upto: int): (r: Option<nat>)
    requires upto <= |f|
    ensures r.Some? ==> c <= r.value < upto && !IsIdentChar(f[r.value])
    ensures r.None? <==> forall i :: c <= i < upto ==> IsIdentChar(f[i])
    decreases upto - c
  {
    if c >= upto then None
    else if !IsIdentChar(f[c]) then Some(c)
    else FirstBadIdentChar(f, c + 1, upto)
  }

  /**
   * The arc one field contributes, as NewObjectIdentifier's loop body
   * computes it. A field of digits is its value. Any other field needs its
   * first ')' to be its last character and letters, digits or hyphens before
   * its first '('; the digit test then covers the text between the '(' and
   * the character before the ')', and the arc is the Atoi of the text up to
   * the ')', or 0 when that fails.
   */
  function FieldArc(f: string): Result<int, OidError> {
    if AllDigits(f) then Ok(DecimalValue(f))
    else
      var idxr := IndexRune(f, ')');
      if idxr != |f| - 1 then Err(BadIdentifier(f))
      else LabelArc(f, IndexRune(f, '('), idxr)
  }

  /** FieldArc of a field whose first '(' is at `idxl` (or -1) and whose first ')' is at `idxr`. */
  function LabelArc(f: string, idxl: int, idxr: int): Result<int, OidError>
    requires -1 <= idxl <= |f| && 0 <= idxr <= |f|
  {
    match FirstBadIdentChar(f, 0, idxl)
    case Some(c) => Err(BadIdentifierChar(f, c))
    case None =>
      if idxr < idxl + 2 then Err(SliceOutOfRange(f))
      else if !AllDigits(f[idxl + 1..idxr - 1]) then
        // the error message reads f[idxl], which panics when there is no '('
        if idxl == -1 then Err(IndexOutOfRange(f)) else Err(BadNumber(f))
      else Ok(AtoiOrZero(f[idxl + 1..idxr]))
  }

  /** The arcs of a list of fields, or the error of the first field that fails. */
  function ParseArcs(fs: seq<string>): Result<seq<int>, OidError>
    decreases |fs|
  {
    if fs == [] then Ok([])
    else match ParseArcs(fs[..|fs| - 1])
      case Err(e) => Err(e)
      case Ok(xs) =>
        match FieldArc(fs[|fs| - 1])
        case Err(e) => Err(e)
        case Ok(v) => Ok(xs + [v])
  }

  /** The fields of raw input after the leading "{ " and trailing " }" characters are trimmed. */
  function RawFields(raw: string): seq<string> {
    Fields(TrimRight(TrimLeft(raw, "{ "), " }"))
  }

  /** What NewObjectIdentifier produces from `raw`. */
  function Parse(raw: string): Result<Arcs, OidError> {
    if |raw| < 6 then Err(TooShort)
    else
      var fs := RawFields(raw);
      match ParseArcs(fs)
      case Err(e) => Err(e)
      case Ok(ints) => if ValidArcs(fs, ints) then Ok(Arcs(fs, ints)) else Err(Invalid)
  }

  // ---------------------------------------------------------------------------
  // Equality

  /** Equal, term by term. */
  predicate Matches(nanf: seq<string>, aka: seq<string>, ints: seq<int>, x: Term) {
    match x
    case IntsTerm(xs) => Misc.SameNonEmpty(xs, ints)
    case StringTerm(s) =>
      DotNotation(ints) == s || NameForm(nanf) == s || AltNamePresent(s, aka)
    case StringsTerm(ss) => Misc.SameNonEmpty(nanf, ss)
    case OtherTerm => false
  }

  // ---------------------------------------------------------------------------
  // Alternate names

  /** Some alternate name equals `s` up to ASCII case (the EqualFold test of SetAltNames and Equal). */
  predicate AltNamePresent(s: string, aka: seq<string>) {
    exists i :: 0 <= i < |aka| && EqualFold(aka[i], s)
  }

  /**
   * SetAltNames as its documentation describes it: each name is appended in
   * order unless an equal name (up to case) is already present.
   */
  function AddAltNames(aka: seq<string>, names: seq<string>): seq<string>
    decreases |names|
  {
    if names == [] then aka
    else AddAltNames(if AltNamePresent(names[0], aka) then aka else aka + [names[0]], names[1..])
  }

  /** SetAltNames as written: `None` is the index-out-of-range panic. */
  function SetAltNamesAsWritten(aka: seq<string>, names: seq<string>): Option<seq<string>> {
    AsWrittenLoop(aka, names, 0)
  }

  /**
   * The outer loop of SetAltNames from index `i`: the inner loop tests and
   * increments `i` instead of `j`, so it only moves `i` up to `len(aka)`;
   * its `continue` skips nothing, and `name[i]` is then appended.
   */
  function AsWrittenLoop(aka: seq<string>, names: seq<string>, i: nat): Option<seq<string>>
    decreases |names| - i
  {
    if i >= |names| then Some(aka)
    else
      var k := if i < |aka| then |aka| else i;
      if k >= |names| then None
      else AsWrittenLoop(aka + [names[k]], names, k + 1)
  }

  // ---------------------------------------------------------------------------
  // The object

  class ObjectIdentifier {
    var nANF: seq<string>
    var aka: seq<string>
    var ints: seq<int>

    /** `new(ObjectIdentifier)`: all three lists empty. */
    constructor ()
      ensures nANF == [] && aka == [] && ints == []
    {
      nANF, aka, ints := [], [], [];
    }

    /** AltNames: the alternate names in the order they were added; Equal accepts each of them. */
    function AltNames(): (r: seq<string>)
      reads this
      ensures forall i :: 0 <= i < |r| ==> Matches(nANF, aka, ints, StringTerm(r[i]))
    {
      aka
    }

    /** Valid, with its loop over the arcs. */
    method Valid() returns (ok: bool)
      ensures ok == ValidArcs(nANF, ints)
    {
      if |nANF| != |ints| {
        return false;
      }
      var i := 0;
      while i < |ints|
        invariant 0 <= i <= |ints|
        invariant forall j :: 0 <= j < i ==> ints[j] >= 0
      {
        if ints[i] < 0 {
          return false;
        }
        i := i + 1;
      }
      if |ints| == 0 {
        // Go would panic reading ints[0]
        return false;
      }
      return 0 <= ints[0] && ints[0] <= 2;
    }

    /** Equal, with its scan of the alternate names. */
    method Equal(x: Term) returns (eq: bool)
      ensures eq == Matches(nANF, aka, ints, x)
    {
      match x {
        case IntsTerm(xs) =>
          eq := Misc.SliceEqual(xs, ints);
        case StringTerm(s) =>
          if DotNotation(ints) == s {
            return true;
          } else if NameForm(nANF) == s {
            return true;
          }
          eq := ScanAltNames(aka, s);
        case StringsTerm(ss) =>
          eq := Misc.SliceEqual(nANF, ss);
        case OtherTerm =>
          eq := false;
      }
    }

    /**
     * SetAltNames as documented: names already present up to case are
     * skipped (the loop as written never skips one; see SetAltNamesAsWritten).
     */
    method SetAltNames(names: seq<string>)
      modifies this
      ensures aka == AddAltNames(old(aka), names)
      ensures nANF == old(nANF) && ints == old(ints)
    {
      var i := 0;
      while i < |names|
        invariant 0 <= i <= |names|
        invariant AddAltNames(aka, names[i..]) == AddAltNames(old(aka), names)
        invariant nANF == old(nANF) && ints == old(ints)
      {
        assert names[i..][1..] == names[i + 1..];
        var present := ScanAltNames(aka, names[i]);
        if !present {
          aka := aka + [names[i]];
        }
        i := i + 1;
      }
    }
  }

  /** The inner loop of SetAltNames: is `s` among the alternate names, up to case? */
  method ScanAltNames(aka: seq<string>, s: string) returns (present: bool)
    ensures present == AltNamePresent(s, aka)
  {
    var j := 0;
    while j < |aka|
      invariant 0 <= j <= |aka|
      invariant forall m :: 0 <= m < j ==> !EqualFold(aka[m], s)
    {
      if EqualFold(aka[j], s) {
        return true;
      }
      j := j + 1;
    }
    return false;
  }

  /** The per-field body of NewObjectIdentifier's loop. */
  method ParseField(f: string) returns (r: Result<int, OidError>)
    ensures r == FieldArc(f)
  {
    var digits := Misc.IsDigit(f);
    if digits {
      // a number: Atoi cannot fail
      return Ok(DecimalValue(f));
    }
    // the last character must be the first ')'
    var idxr := IndexRune(f, ')');
    if idxr != |f| - 1 {
      return Err(BadIdentifier(f));
    }
    var idxl := IndexRune(f, '(');
    r := ParseLabel(f, idxl, idxr);
  }

  /** The check of a `name(number)` field: the characters before '(', then the number. */
  method ParseLabel(f: string, idxl: int, idxr: int) returns (r: Result<int, OidError>)
    requires -1 <= idxl <= |f| && 0 <= idxr <= |f|
    ensures r == LabelArc(f, idxl, idxr)
  {
    var c: nat := 0;
    while c < idxl
      invariant c <= |f|
      invariant idxl >= 0 ==> c <= idxl
      invariant FirstBadIdentChar(f, c, idxl) == FirstBadIdentChar(f, 0, idxl)
    {
      if !IsIdentChar(f[c]) {
        return Err(BadIdentifierChar(f, c));
      }
      c := c + 1;
    }
    if idxr < idxl + 2 {
      // f[idxl+1 : idxr-1] is out of range: Go panics
      return Err(SliceOutOfRange(f));
    }
    // the digit test stops one character short of the ')'
    var digits := Misc.IsDigit(f[idxl + 1..idxr - 1]);
    if !digits {
      if idxl == -1 {
        // the error message reads f[idxl]: Go panics
        return Err(IndexOutOfRange(f));
      }
      return Err(BadNumber(f));
    }
    // Atoi's error is ignored: 0 when the character before ')' is not a digit
    return Ok(AtoiOrZero(f[idxl + 1..idxr]));
  }

  /**
   * NewObjectIdentifier: nil and an error for input shorter than six
   * characters; otherwise a fresh object, which is left empty on every error
   * because the working copy is copied into it only at the end.
   */
  method NewObjectIdentifier(raw: string) returns (o: ObjectIdentifier?, err: Option<OidError>)
    ensures |raw| < 6 ==> o == null && err == Some(TooShort)
    ensures |raw| >= 6 ==> o != null && fresh(o)
    ensures err.None? <==> Parse(raw).Ok?
    ensures Parse(raw).Err? ==> err == Some(Parse(raw).error)
    ensures o != null && err.Some? ==> o.nANF == [] && o.ints == [] && o.aka == []
    ensures err.None? ==> o != null && o.nANF == Parse(raw).value.nanf &&
                          o.ints == Parse(raw).value.ints && o.aka == []
  {
    if |raw| < 6 {
      return null, Some(TooShort);
    }
    var t := new ObjectIdentifier();
    o := new ObjectIdentifier();
    var f := Fields(TrimRight(TrimLeft(raw, "{ "), " }"));
    var i := 0;
    while i < |f|
      invariant 0 <= i <= |f|
      invariant ParseArcs(f[..i]) == Ok(t.ints)
      invariant t.nANF == f[..i] && t.aka == []
      invariant o.nANF == [] && o.ints == [] && o.aka == []
    {
      var arc := ParseField(f[i]);
      if arc.Err? {
        assert f[..i + 1][..i] == f[..i];
        ParseArcsPrefixErr(f, i + 1);
        return o, Some(arc.error);
      }
      assert f[..i + 1][..i] == f[..i];
      t.ints := t.ints + [arc.value];
      t.nANF := t.nANF + [f[i]];
      assert t.nANF == f[..i + 1];
      i := i + 1;
    }
    assert f[..|f|] == f;
    var ok := t.Valid();
    if !ok {
      return o, Some(Invalid);
    }
    o.nANF, o.aka, o.ints := t.nANF, t.aka, t.ints;
    err := None;
  }

  /** A failure among the first fields is the failure of the whole list. */
  lemma {:induction false} ParseArcsPrefixErr(fs: seq<string>, i: nat)
    requires i <= |fs|
    requires ParseArcs(fs[..i]).Err?
    ensures ParseArcs(fs) == ParseArcs(fs[..i])
    decreases |fs| - i
  {
    if i < |fs| {
      assert fs[..i + 1][..i] == fs[..i];
      ParseArcsPrefixErr(fs, i + 1);
    } else {
      assert fs[..i] == fs;
    }
  }

  // ---------------------------------------------------------------------------
  // oidToIntSlices

  /** The dynamic types oidToIntSlices accepts; a nil *ObjectIdentifier is excluded by the type. */
  datatype IntsSource = FromObject(obj: ObjectIdentifier) | FromString(s: string) | FromInts(ints: seq<int>) | FromOther

  /** The arcs of a dotted string: every '.'-separated piece must pass Atoi, else none at all. */
  function DottedInts(s: string): seq<int> {
    var parts := Split(s, '.');
    if forall i :: 0 <= i < |parts| ==> Atoi(parts[i]).Some? then
      seq(|parts|, i requires 0 <= i < |parts| => AtoiOrZero(parts[i]))
    else []
  }

  function SourceRank(src: IntsSource): nat {
    if src.FromObject? then 1 else 0
  }

  /** oidToIntSlices, with its loop over the dotted pieces. */
  method OidToIntSlices(src: IntsSource) returns (r: seq<int>)
    ensures src.FromObject? ==> r == src.obj.ints
    ensures src.FromString? ==> r == DottedInts(src.s)
    ensures src.FromInts? ==> r == src.ints
    ensures src.FromOther? ==> r == []
    decreases SourceRank(src)
  {
    match src {
      case FromObject(obj) =>
        r := OidToIntSlices(FromInts(obj.ints));
      case FromString(s) =>
        var arcs := Split(s, '.');
        var out := new int[|arcs|];
        for idx := 0 to |arcs|
          invariant forall j :: 0 <= j < idx ==> Atoi(arcs[j]).Some? && out[j] == Atoi(arcs[j]).value
        {
          var u := Atoi(arcs[idx]);
          if u.None? {
            return [];
          }
          out[idx] := u.value;
        }
        r := out[..];
      case FromInts(ints) =>
        r := ints;
      case FromOther =>
        r := [];
    }
  }

  // ---------------------------------------------------------------------------
  // What one field contributes

  /** No field yields a negative arc: the only sign Atoi could see is alone before the ')'. */
  lemma FieldArcNonNegative(f: string)
    requires FieldArc(f).Ok?
    ensures FieldArc(f).value >= 0
  {
    if !AllDigits(f) {
      var idxr := IndexRune(f, ')');
      var idxl := IndexRune(f, '(');
      var span := f[idxl + 1..idxr];
      assert span[..|span| - 1] == f[idxl + 1..idxr - 1];
      if Atoi(span).Some? && Atoi(span).value < 0 {
        AtoiSign(span);
      }
    }
  }

  /** A field of digits contributes its decimal value. */
  lemma DigitField(f: string)
    requires f != [] && AllDigits(f)
    ensures FieldArc(f) == Ok(DecimalValue(f))
  {
  }

  /** A label whose name passes and whose whole parenthesised text is digits contributes that number. */
  lemma LabelArcOfDigits(f: string, idxl: int, idxr: int)
    requires -1 <= idxl <= |f| && 0 <= idxr <= |f|
    requires FirstBadIdentChar(f, 0, idxl) == None
    requires idxr >= idxl + 2 && AllDigits(f[idxl + 1..idxr])
    ensures LabelArc(f, idxl, idxr) == Ok(DecimalValue(f[idxl + 1..idxr]))
  {
    var span := f[idxl + 1..idxr];
    assert f[idxl + 1..idxr - 1] == span[..|span| - 1];
    AtoiOfDigits(span);
  }

  /** Where the parentheses of `name(digits)` are. */
  lemma LabelFieldParens(id: string, ds: string)
    requires forall i :: 0 <= i < |id| ==> IsIdentChar(id[i])
    requires AllDigits(ds)
    ensures var f := id + "(" + ds + ")";
      IndexRune(f, '(') == |id| && IndexRune(f, ')') == |f| - 1 && !AllDigits(f)
  {
    var f := id + "(" + ds + ")";
    var head := id + "(" + ds;
    assert f == id + ['('] + (ds + ")");
    IndexRuneAfter(id, '(', ds + ")");
    assert f == head + [')'] + [];
    assert ')' !in head by {
      forall i | 0 <= i < |head| ensures head[i] != ')' {
        if i < |id| {
          assert IsIdentChar(id[i]);
        } else if i > |id| {
          assert IsDigitChar(ds[i - |id| - 1]);
        }
      }
    }
    IndexRuneAfter(head, ')', []);
    assert !IsDigitChar(f[|id|]);
  }

  /** A field `name(digits)` whose name has only letters, digits and hyphens contributes the digits' value. */
  lemma LabelField(id: string, ds: string)
    requires forall i :: 0 <= i < |id| ==> IsIdentChar(id[i])
    requires ds != [] && AllDigits(ds)
    ensures FieldArc(id + "(" + ds + ")") == Ok(DecimalValue(ds))
  {
    var f := id + "(" + ds + ")";
    LabelFieldParens(id, ds);
    LabelFieldArc(f, id, ds);
  }

  lemma LabelFieldArc(f: string, id: string, ds: string)
    requires f == id + "(" + ds + ")"
    requires forall i :: 0 <= i < |id| ==> IsIdentChar(id[i])
    requires ds != [] && AllDigits(ds)
    ensures LabelArc(f, |id|, |f| - 1) == Ok(DecimalValue(ds))
  {
    var idxl, idxr := |id|, |f| - 1;
    assert FirstBadIdentChar(f, 0, idxl) == None by {
      assert forall i :: 0 <= i < |id| ==> f[i] == id[i];
    }
    assert f[idxl + 1..idxr] == ds;
    LabelArcOfDigits(f, idxl, idxr);
  }

  /**
   * A field that is not all digits is rejected unless its first ')' is its
   * last character and every character before its first '(' is a letter,
   * digit or hyphen.
   */
  lemma FieldRejections(f: string)
    ensures !AllDigits(f) && IndexRune(f, ')') != |f| - 1 ==> FieldArc(f) == Err(BadIdentifier(f))
    ensures !AllDigits(f) && (exists c :: 0 <= c < IndexRune(f, '(') && !IsIdentChar(f[c])) ==> FieldArc(f).Err?
    ensures FieldArc(f).Ok? && !AllDigits(f) ==>
      f[|f| - 1] == ')' && ')' !in f[..|f| - 1] &&
      forall c :: 0 <= c < IndexRune(f, '(') ==> IsIdentChar(f[c])
  {
  }

  /** The digit test stops one character short of the ')', and Atoi's error is ignored: `a(1x)` reads as 0. */
  lemma LastDigitUnchecked()
    ensures FieldArc("a(1x)") == Ok(0)
  {
    var f := "a(1x)";
    assert !IsDigitChar(f[0]);
    assert IndexRune(f, ')') == 4 by { IndexRuneAfter("a(1x", ')', []); }
    assert IndexRune(f, '(') == 1 by { IndexRuneAfter("a", '(', "1x)"); }
    assert f[2..3] == "1";
    assert f[2..4] == "1x";
    assert !IsDigitChar("1x"[1..][0]);
  }

  /** Without a '(' the text before the ')' is the number: `12)` reads as 12. */
  lemma MissingOpenParenAccepted()
    ensures FieldArc("12)") == Ok(12)
  {
    var f := "12)";
    assert !IsDigitChar(f[2]);
    assert IndexRune(f, ')') == 2 by { IndexRuneAfter("12", ')', []); }
    assert IndexRune(f, '(') == -1;
    assert f[0..1] == "1";
    assert f[0..2] == "12";
    assert DecimalValue("12") == 12 by {
      assert "12"[..1] == "1";
      assert "1"[..0] == "";
    }
  }

  /**
   * Without a '(' a field whose checked text is not all digits makes Go
   * panic while it formats the error: `ab)` reads `f[-1]`.
   */
  lemma NoOpenParenBadNumberPanics()
    ensures FieldArc("ab)") == Err(IndexOutOfRange("ab)"))
  {
    var f := "ab)";
    assert !IsDigitChar(f[0]);
    assert IndexRune(f, ')') == 2 by { IndexRuneAfter("ab", ')', []); }
    assert IndexRune(f, '(') == -1;
    assert f[0..1] == "a";
  }

  /** Empty parentheses make Go slice out of range. */
  lemma EmptyParensPanic()
    ensures FieldArc("a()") == Err(SliceOutOfRange("a()"))
  {
    var f := "a()";
    assert !IsDigitChar(f[0]);
    assert IndexRune(f, ')') == 2 by { IndexRuneAfter("a(", ')', []); }
    assert IndexRune(f, '(') == 1 by { IndexRuneAfter("a", '(', ")"); }
  }

  // ---------------------------------------------------------------------------
  // What a whole parse produces

  /**
   * The fields parse exactly when each of them does; then there is one arc per
   * field, in order, each the field's own arc.
   */
  lemma {:induction false} ParseArcsShape(fs: seq<string>)
    ensures ParseArcs(fs).Ok? <==> forall j :: 0 <= j < |fs| ==> FieldArc(fs[j]).Ok?
    ensures ParseArcs(fs).Ok? ==>
      |ParseArcs(fs).value| == |fs| &&
      forall j :: 0 <= j < |fs| ==> FieldArc(fs[j]) == Ok(ParseArcs(fs).value[j])
    decreases |fs|
  {
    if fs != [] {
      var init := fs[..|fs| - 1];
      ParseArcsShape(init);
      assert forall j :: 0 <= j < |init| ==> init[j] == fs[j];
    }
  }

  /** A failed parse of the fields reports the error of the first field that fails. */
  lemma {:induction false} ParseArcsFirstError(fs: seq<string>)
    requires ParseArcs(fs).Err?
    ensures exists j :: (0 <= j < |fs| && FieldArc(fs[j]) == Err(ParseArcs(fs).error) &&
                         forall k :: 0 <= k < j ==> FieldArc(fs[k]).Ok?)
    decreases |fs|
  {
    var init := fs[..|fs| - 1];
    assert forall j :: 0 <= j < |init| ==> init[j] == fs[j];
    if ParseArcs(init).Err? {
      ParseArcsFirstError(init);
      var j :| 0 <= j < |init| && FieldArc(init[j]) == Err(ParseArcs(init).error) &&
        forall k :: 0 <= k < j ==> FieldArc(init[k]).Ok?;
      assert FieldArc(fs[j]) == Err(ParseArcs(fs).error);
    } else {
      ParseArcsShape(init);
      assert FieldArc(fs[|fs| - 1]) == Err(ParseArcs(fs).error);
    }
  }

  /**
   * A successful parse keeps every field text, gives one non-negative arc per
   * field from that field alone, and is Valid.
   */
  lemma ParseSuccess(raw: string)
    requires Parse(raw).Ok?
    ensures |raw| >= 6
    ensures var a := Parse(raw).value;
      a.nanf == RawFields(raw) && |a.nanf| == |a.ints| &&
      (forall j :: 0 <= j < |a.nanf| ==> FieldArc(a.nanf[j]) == Ok(a.ints[j]) && a.ints[j] >= 0) &&
      ValidArcs(a.nanf, a.ints)
  {
    var a := Parse(raw).value;
    ParseArcsShape(a.nanf);
    forall j | 0 <= j < |a.nanf| ensures a.ints[j] >= 0 {
      FieldArcNonNegative(a.nanf[j]);
    }
  }

  /** Every way a parse fails. */
  lemma ParseFailures(raw: string)
    ensures |raw| < 6 ==> Parse(raw) == Err(TooShort)
    ensures |raw| >= 6 && (exists j :: 0 <= j < |RawFields(raw)| && FieldArc(RawFields(raw)[j]).Err?) ==>
      Parse(raw).Err? && Parse(raw) != Err(Invalid)
    ensures |raw| >= 6 && RawFields(raw) == [] ==> Parse(raw) == Err(Invalid)
  {
    ParseArcsShape(RawFields(raw));
    if ParseArcs(RawFields(raw)).Err? {
      ParseArcsFirstError(RawFields(raw));
    }
  }

  // ---------------------------------------------------------------------------
  // Rendering and parsing again

  /** An accepted field ends in a digit or ')'. */
  lemma FieldArcLastChar(f: string)
    requires f != [] && FieldArc(f).Ok?
    ensures IsDigitChar(f[|f| - 1]) || f[|f| - 1] == ')'
  {
  }

  /** The first field starts with '{'. */
  predicate StartsWithBrace(fs: seq<string>) {
    fs != [] && fs[0] != [] && fs[0][0] == '{'
  }

  /** The String rendering trims and splits back into the same fields. */
  lemma RawFieldsOfNameForm(fs: seq<string>)
    requires |fs| >= 1 && forall j :: 0 <= j < |fs| ==> IsField(fs[j]) && FieldArc(fs[j]).Ok?
    requires !StartsWithBrace(fs)
    ensures RawFields(NameForm(fs)) == fs
  {
    var last := fs[|fs| - 1];
    var joined := Join(fs, " ");
    JoinEnds(fs, " ");
    FieldArcLastChar(last);
    assert NameForm(fs) == "{ " + (joined + " }");
    TrimLeftPrefix("{ ", joined + " }", "{ ");
    TrimRightSuffix(joined, " }", " }");
    FieldsOfJoin(fs);
  }

  /**
   * Parsing the String rendering of a parsed OID gives the same OID, when
   * the rendering is long enough to pass the length check and the first
   * field does not start with '{' (which the trimming would remove).
   */
  lemma ParseOfNameForm(raw: string)
    requires Parse(raw).Ok?
    requires |NameForm(Parse(raw).value.nanf)| >= 6
    requires !StartsWithBrace(Parse(raw).value.nanf)
    ensures Parse(NameForm(Parse(raw).value.nanf)) == Parse(raw)
  {
    var a := Parse(raw).value;
    ParseSuccess(raw);
    RawFieldsOfNameForm(a.nanf);
  }

  // ---------------------------------------------------------------------------
  // The dotted form

  /** The dotted pieces of the arcs contain no '.'. */
  lemma NoDotInDecimals(ints: seq<int>)
    ensures forall i :: 0 <= i < |ints| ==> '.' !in Decimals(ints)[i]
  {
    forall i | 0 <= i < |ints| ensures '.' !in Decimals(ints)[i] {
      var d := Itoa(if ints[i] < 0 then -ints[i] else ints[i]);
      assert forall k :: 0 <= k < |d| ==> IsDigitChar(d[k]);
    }
  }

  /** oidToIntSlices of the dotted form gives the arcs back (for no arcs, "" gives none). */
  lemma DottedIntsOfDotNotation(ints: seq<int>)
    ensures DottedInts(DotNotation(ints)) == ints
  {
    if ints != [] {
      DottedIntsOfNonEmpty(ints);
    } else {
      assert DotNotation(ints) == "";
      var parts := Split("", '.');
      assert parts == [""];
      assert Atoi(parts[0]).None?;
      assert DottedInts("") == [];
    }
  }

  lemma DottedIntsOfNonEmpty(ints: seq<int>)
    requires ints != []
    ensures DottedInts(DotNotation(ints)) == ints
  {
    var ds := Decimals(ints);
    NoDotInDecimals(ints);
    SplitOfJoin(ds, '.');
    assert "." == ['.'];
    assert Split(DotNotation(ints), '.') == ds;
    forall i | 0 <= i < |ints| ensures Atoi(ds[i]) == Some(ints[i]) {
      AtoiOfIntToString(ints[i]);
    }
  }

  /** Two arc lists with the same dotted form are equal. */
  lemma DotNotationInjective(xs: seq<int>, ys: seq<int>)
    requires DotNotation(xs) == DotNotation(ys)
    ensures xs == ys
  {
    DottedIntsOfDotNotation(xs);
    DottedIntsOfDotNotation(ys);
  }

  // ---------------------------------------------------------------------------
  // Equality

  /** An int-sequence term matches exactly a non-empty, identical arc list; other types never match. */
  lemma MatchesByType(nanf: seq<string>, aka: seq<string>, ints: seq<int>, xs: seq<int>, ss: seq<string>)
    ensures Matches(nanf, aka, ints, IntsTerm(xs)) <==> xs == ints && ints != []
    ensures Matches(nanf, aka, ints, StringsTerm(ss)) <==> ss == nanf && nanf != []
    ensures !Matches(nanf, aka, ints, OtherTerm)
  {
    if Misc.SameNonEmpty(xs, ints) { assert xs == ints; }
    if Misc.SameNonEmpty(nanf, ss) { assert nanf == ss; }
  }

  /**
   * A parsed OID equals each of its own forms: its arcs, its field texts, its
   * dotted string, its String rendering and each alternate name in any case.
   */
  lemma ParsedMatchesOwnForms(raw: string, aka: seq<string>)
    requires Parse(raw).Ok?
    ensures var a := Parse(raw).value;
      Matches(a.nanf, aka, a.ints, IntsTerm(a.ints)) &&
      Matches(a.nanf, aka, a.ints, StringsTerm(a.nanf)) &&
      Matches(a.nanf, aka, a.ints, StringTerm(DotNotation(a.ints))) &&
      Matches(a.nanf, aka, a.ints, StringTerm(NameForm(a.nanf))) &&
      forall i, s :: 0 <= i < |aka| && EqualFold(aka[i], s) ==> Matches(a.nanf, aka, a.ints, StringTerm(s))
  {
    ParseSuccess(raw);
  }

  /**
   * A dotted string term matches an OID without alternate names exactly when
   * it names the OID's arcs: a String rendering starts with '{', which no
   * dotted form contains.
   */
  lemma DottedTermMatches(nanf: seq<string>, ints: seq<int>, ys: seq<int>)
    ensures Matches(nanf, [], ints, StringTerm(DotNotation(ys))) <==> ints == ys
  {
    assert NameForm(nanf)[0] == '{';
    assert !DotChar('{');
    assert '{' in NameForm(nanf);
    if DotNotation(ints) == DotNotation(ys) {
      DotNotationInjective(ints, ys);
    }
  }

  // ---------------------------------------------------------------------------
  // Alternate names

  /** Adding names keeps the old names in front and only appends given names. */
  lemma {:induction false} AddAltNamesExtends(aka: seq<string>, names: seq<string>)
    ensures aka <= AddAltNames(aka, names)
    ensures forall i :: |aka| <= i < |AddAltNames(aka, names)| ==> AddAltNames(aka, names)[i] in names
    decreases |names|
  {
    if names != [] {
      var next := if AltNamePresent(names[0], aka) then aka else aka + [names[0]];
      AddAltNamesExtends(next, names[1..]);
      var r := AddAltNames(aka, names);
      forall i | |aka| <= i < |r| ensures r[i] in names {
        if i < |next| {
          assert r[i] == names[0];
        } else {
          assert r[i] in names[1..];
        }
      }
    }
  }

  /** After adding, every given name is present up to case, and so is every earlier one. */
  lemma {:induction false} AddAltNamesCovers(aka: seq<string>, names: seq<string>)
    ensures forall k :: 0 <= k < |names| ==> AltNamePresent(names[k], AddAltNames(aka, names))
    ensures forall s :: AltNamePresent(s, aka) ==> AltNamePresent(s, AddAltNames(aka, names))
    decreases |names|
  {
    if names != [] {
      var next := if AltNamePresent(names[0], aka) then aka else aka + [names[0]];
      AddAltNamesCovers(next, names[1..]);
      AddAltNamesExtends(next, names[1..]);
      var r := AddAltNames(aka, names);
      forall s | AltNamePresent(s, aka) ensures AltNamePresent(s, next) {
        var i :| 0 <= i < |aka| && EqualFold(aka[i], s);
        assert next[i] == aka[i];
      }
      assert AltNamePresent(names[0], next) by {
        if !AltNamePresent(names[0], aka) {
          assert next[|aka|] == names[0];
        }
      }
      forall k | 0 <= k < |names| ensures AltNamePresent(names[k], r) {
        if k > 0 {
          assert names[k] == names[1..][k - 1];
        }
      }
    }
  }

  /** Adding names that are all present up to case changes nothing. */
  lemma {:induction false} AddAltNamesPresent(aka: seq<string>, names: seq<string>)
    requires forall k :: 0 <= k < |names| ==> AltNamePresent(names[k], aka)
    ensures AddAltNames(aka, names) == aka
    decreases |names|
  {
    if names != [] {
      AddAltNamesPresent(aka, names[1..]);
    }
  }

  /** Adding the same names twice is the same as adding them once. */
  lemma AddAltNamesIdempotent(aka: seq<string>, names: seq<string>)
    ensures AddAltNames(AddAltNames(aka, names), names) == AddAltNames(aka, names)
  {
    AddAltNamesCovers(aka, names);
    AddAltNamesPresent(AddAltNames(aka, names), names);
  }

  /** No two names equal up to case. */
  predicate NoFoldDuplicates(xs: seq<string>) {
    forall i, j :: 0 <= i < j < |xs| ==> !EqualFold(xs[i], xs[j])
  }

  /** Adding names never creates two names equal up to case. */
  lemma {:induction false} AddAltNamesNoDuplicates(aka: seq<string>, names: seq<string>)
    requires NoFoldDuplicates(aka)
    ensures NoFoldDuplicates(AddAltNames(aka, names))
    decreases |names|
  {
    if names != [] {
      var next := if AltNamePresent(names[0], aka) then aka else aka + [names[0]];
      assert NoFoldDuplicates(next);
      AddAltNamesNoDuplicates(next, names[1..]);
    }
  }

  /** After a name is added, Equal accepts it in any case. */
  lemma AltNameMatchesAfterAdd(nanf: seq<string>, aka: seq<string>, ints: seq<int>, names: seq<string>, k: nat, s: string)
    requires k < |names| && EqualFold(names[k], s)
    ensures Matches(nanf, AddAltNames(aka, names), ints, StringTerm(s))
  {
    AddAltNamesCovers(aka, names);
    var r := AddAltNames(aka, names);
    var i :| 0 <= i < |r| && EqualFold(r[i], names[k]);
    assert EqualFold(r[i], s);
  }

  /** As written, SetAltNames on an OID without alternate names keeps every name, duplicates included. */
  lemma AsWrittenNeverFiltersFromEmpty(names: seq<string>)
    ensures SetAltNamesAsWritten([], names) == Some(names)
  {
    AsWrittenFromPrefix(names, 0);
  }

  lemma {:induction false} AsWrittenFromPrefix(names: seq<string>, i: nat)
    requires i <= |names|
    ensures AsWrittenLoop(names[..i], names, i) == Some(names)
    decreases |names| - i
  {
    if i < |names| {
      assert names[..i] + [names[i]] == names[..i + 1];
      AsWrittenFromPrefix(names, i + 1);
    } else {
      assert names[..i] == names;
    }
  }

  /**
   * As written, SetAltNames keeps a repeated name and panics when an OID that
   * already has a name is given one more; the documented behaviour does neither.
   */
  lemma SetAltNamesAsWrittenCounterexamples()
    ensures SetAltNamesAsWritten([], ["x", "x"]) == Some(["x", "x"])
    ensures AddAltNames([], ["x", "x"]) == ["x"]
    ensures SetAltNamesAsWritten(["a"], ["b"]) == None
    ensures AddAltNames(["a"], ["b"]) == ["a", "b"]
  {
    AsWrittenNeverFiltersFromEmpty(["x", "x"]);
    assert ["x", "x"][1..] == ["x"];
    assert AltNamePresent("x", ["x"]);
    assert !AltNamePresent("b", ["a"]) by {
      assert LowerStr("a") == "a";
      assert LowerStr("b") == "b";
    }
  }

  // ---------------------------------------------------------------------------
  // Worked examples

  /** The field check accepts a digit first, so `1Foo(1)` is a field with arc 1. */
  lemma LeadingDigitAccepted()
    ensures FieldArc("1Foo(1)") == Ok(1)
  {
    var id, ds := "1Foo", "1";
    assert DecimalValue(ds) == 1 by { assert ds[..0] == ""; }
    assert forall i :: 0 <= i < |id| ==> IsIdentChar(id[i]);
    LabelField(id, ds);
    assert "1Foo(1)" == id + "(" + ds + ")";
  }

  /** `dod(6)` is a field with arc 6. */
  lemma LabelExample()
    ensures FieldArc("dod(6)") == Ok(6)
  {
    var id, ds := "dod", "6";
    assert DecimalValue(ds) == 6 by { assert ds[..0] == ""; }
    assert forall i :: 0 <= i < |id| ==> IsIdentChar(id[i]);
    LabelField(id, ds);
    assert "dod(6)" == id + "(" + ds + ")";
  }

  /** The arcs 1, 3, 6, 1 render as `1.3.6.1`. */
  lemma DottedExample()
    ensures DotNotation([1, 3, 6, 1]) == "1.3.6.1"
  {
    assert Decimals([1, 3, 6, 1]) == ["1", "3", "6", "1"];
  }
}
