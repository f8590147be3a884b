# go-oid in Dafny

A model of the Go package `oid`, which parses, validates, renders and compares
ASN.1 object identifiers (ITU-T X.680 section 32, NameAndNumberForm) and keeps a
caller-owned registry of them.

- `ObjectIdentifier` (oid.go) is a class with the source's three fields: `nANF`
  (the text of each field, such as `iso(1)`), `ints` (the arcs) and `aka` (the
  alternate names). The field loop of `NewObjectIdentifier` is a method that
  appends to a working object and copies it into the result at the end. It is
  proved equal to the specification function `Parse`. `Valid` and the
  alternate-name scan in `Equal` are loops, proved against `ValidArcs` and
  `Matches`. `SetAltNames` appends to `aka` in place. `String`, the dotted
  rendering of `ASN1()` and `NameAndNumberForm()` are functions over the
  fields: `NameForm`, `DotNotation` and `LastArc`. `AltNames` returns `aka`.
- `NameAndNumberForm` (nanf.go) is a datatype holding an identifier and an
  unbounded unsigned number. Go's `Identifier()` and `Decimal()` are the
  destructors `identifier` and `primaryIdentifier`.
  `parseNaNFstr` is a method with its character loop, proved equal to
  `ParseNaNF`. `NewNameAndNumberForm` is a function that dispatches on an
  explicit input type.
- The helpers of misc.go are loop methods, each proved against a predicate:
  `isDigit`, `strInSlice`, and `intSliceEqual`/`strSliceEqual` (one generic
  `SliceEqual`).
- `ObjectIdentifierMap` (oids.go) is a class over `map<string, ObjectIdentifier?>`.
  A nil pointer is `null`. `Get` picks keys in a nondeterministic order, so its
  contract speaks of *a* matching entry, never the first.
- The Go standard-library calls (`strings.Fields`, `TrimLeft`, `TrimRight`,
  `IndexRune`, `Join`, `Split`, `EqualFold`, `strconv.Atoi`, `Itoa`) are
  functions in module `Text`. Options and results are in module `Wrappers`.

Go panics become error values, with the one exception listed under
"## Left out" for `Valid`. `SliceOutOfRange` stands for a slice out of
range, `IndexOutOfRange` for an index out of range, `Lookup.NilDeref` for a nil dereference in `Get`, and `Exists` returns
`None` in that case. A nil `*ObjectIdentifier` given to `oidToIntSlices` is
ruled out by the non-null type.

### Behaviour kept as written

- oid.go:234 tests the digits of `[idxl+1 : idxr-1]`, so it skips the
  character before `)`. oid.go:240 then ignores `Atoi`'s error. So `a(1x)` is
  accepted with arc 0 (`Oid.LastDigitUnchecked`). A field with no `(` is
  accepted when its text before the character before `)` is all digits, as
  `12)` is (`Oid.MissingOpenParenAccepted`). Otherwise, as with `ab)`, the
  error message at oid.go:235 reads `f[i][-1]` and panics
  (`Oid.NoOpenParenBadNumberPanics`). `a()` panics
  (`Oid.EmptyParensPanic`).
- The per-field check accepts a digit as the first character of a name. So
  `{ 1Foo(1) }` is a field with arc 1 (`Oid.LeadingDigitAccepted`). It is not a
  grammar error, even though X.680 identifiers must start with a lower-case
  letter.
- nanf.go:62 scans only `x[:idx-1]`. The last identifier character is never
  checked, so `A(1)` and `ab-(1)` are accepted. The trailing-hyphen branch at
  nanf.go:81-85 cannot be reached, and `(1)` panics. A bad number comes back
  with a non-nil zero value next to the error. `foo()` has number 0.
- Parsing the `String()` of a parsed OID gives it back only when the rendering
  has at least six characters and the first field does not start with `{`
  (`Oid.ParseOfNameForm`). For example, `{ 0 }` has five characters and fails
  the length check.

## Model

| member | source | states |
|---|---|---|
| `Oid.NewObjectIdentifier` | oid.go:190-256 | input under 6 characters gives nil and an error; otherwise a fresh object that is empty on every error and holds exactly the parsed fields and arcs, with no alternate names, on success |
| `Oid.ParseField` | oid.go:206-242 | the per-field branch computes the field's arc or error as `FieldArc` defines it |
| `Oid.ParseLabel` | oid.go:211-241 | the `name(number)` branch: character check before `(`, slice panic, digit check (an index panic when there is no `(`), Atoi-or-0 |
| `Oid.ParseArcsShape` | oid.go:200-246 | the fields parse iff each one does; then there is one arc per field, in input order, each from its own field |
| `Oid.ParseArcsFirstError` | oid.go:200-246 | a failed parse reports the error of the first failing field |
| `Oid.ParseSuccess` | oid.go:248-253 | on success the input had at least 6 characters, the field texts are the trimmed whitespace-separated fields, every arc is non-negative and the result is Valid |
| `Oid.ParseFailures` | oid.go:191-194 | input under 6 characters is TooShort; a failing field fails the parse with a field error; no fields is Invalid |
| `Oid.FieldArcNonNegative` | oid.go:239-241 | no accepted field yields a negative arc |
| `Oid.DigitField` | oid.go:206-210 | a digit-only field contributes its decimal value |
| `Oid.LabelField` | oid.go:211-241 | `name(digits)` with a name of letters, digits and hyphens contributes the value of the digits |
| `Oid.LabelFieldParens` | oid.go:213-220 | in `name(digits)` the first `(` follows the name and the first `)` is the last character |
| `Oid.LabelArcOfDigits` | oid.go:233-241 | when the whole parenthesised text is digits, the arc is its value |
| `Oid.FieldRejections` | oid.go:211-231 | a non-digit field is rejected unless its first `)` is its last character and every character before `(` is a letter, digit or hyphen |
| `Oid.LastDigitUnchecked` | oid.go:233-241 | `a(1x)` is accepted with arc 0 |
| `Oid.MissingOpenParenAccepted` | oid.go:219-241 | `12)` is accepted with arc 12 |
| `Oid.NoOpenParenBadNumberPanics` | oid.go:233-236 | `ab)` has no `(`, fails the digit test, and panics on `f[i][-1]` while the error is formatted |
| `Oid.EmptyParensPanic` | oid.go:234 | `a()` makes the digit-check slice panic |
| `Oid.LeadingDigitAccepted` | oid.go:221-231 | `1Foo(1)` is accepted with arc 1 |
| `Oid.LabelExample` | oid.go:211-241 | `dod(6)` has arc 6 |
| `Oid.ObjectIdentifier.constructor` | oid.go:196-197 | a new object has no fields, arcs or alternate names |
| `Oid.ObjectIdentifier.Valid` | oid.go:104-123 | true iff field and arc counts agree, there is an arc, none is negative and the first is 0, 1 or 2 |
| `Oid.ObjectIdentifier.Equal` | oid.go:32-58 | the type-dispatched comparison, including the alternate-name scan, equals `Matches` |
| `Oid.MatchesByType` | oid.go:33-37 | an int-sequence term matches iff it equals the non-empty arcs; a string-sequence term iff it equals the non-empty field texts; any other type never matches |
| `Oid.ParsedMatchesOwnForms` | oid.go:32-58 | a parsed OID Equals its arcs, its field texts, its dotted form, its String rendering, and every alternate name in any case |
| `Oid.DottedTermMatches` | oid.go:38-41 | with no alternate names, a dotted string matches iff it names exactly the OID's arcs (it can never equal the String rendering) |
| `Oid.DotNotation` | oid.go:23-25 | the dotted form is empty iff there are no arcs, and holds only digits, `-` and `.` |
| `Oid.LastArc` | oid.go:74-92 | an empty pair with no arcs; otherwise the last arc in decimal, and the last field's text before its first `(`, or an empty name when it has none |
| `Oid.RawFieldsOfNameForm` | oid.go:65-67 | trimming and splitting the String rendering (`NameForm`) gives back the field texts |
| `Oid.ParseOfNameForm` | oid.go:65-67 | parsing the String rendering of a parsed OID gives the same OID (when at least 6 characters long and not starting with `{`) |
| `Oid.OidToIntSlices` | oid.go:128-152 | an object or int sequence gives its arcs; a dotted string gives its pieces' Atoi values, or nothing if one fails; any other type gives nothing |
| `Oid.DottedIntsOfDotNotation` | oid.go:128-152 | converting the dotted form of any arc list back gives that list |
| `Oid.DotNotationInjective` | oid.go:23-25 | distinct arc lists have distinct dotted forms |
| `Oid.DottedExample` | oid.go:23-25 | arcs 1, 3, 6, 1 render as `1.3.6.1` |
| `Oid.ObjectIdentifier.SetAltNames` | oid.go:154-170 | appends the given names in order, skipping each one already present up to case (the empty name included); fields and arcs unchanged |
| `Oid.ScanAltNames` | oid.go:161-165 | the EqualFold scan of the alternate names is true iff one equals the name up to case |
| `Oid.ObjectIdentifier.AltNames` | oid.go:172-175 | returns the alternate names, each of which Equal accepts |
| `Oid.AddAltNamesExtends` | oid.go:159-170 | existing alternate names stay in front, in order; only given names are appended |
| `Oid.AddAltNamesCovers` | oid.go:154-170 | afterwards every given name is present up to case, and so is every earlier one |
| `Oid.AddAltNamesPresent` | oid.go:154-170 | adding names that are all present changes nothing |
| `Oid.AddAltNamesIdempotent` | oid.go:154-170 | adding the same names twice equals adding them once |
| `Oid.AddAltNamesNoDuplicates` | oid.go:154-170 | adding names never creates two names equal up to case |
| `Oid.AltNameMatchesAfterAdd` | oid.go:45-51 | after a name is added, Equal accepts it in any case |
| `Oid.AsWrittenNeverFiltersFromEmpty` | oid.go:159-167 | the loop as written keeps every name, duplicates included, when there are no alternate names yet |
| `Oid.SetAltNamesAsWrittenCounterexamples` | oid.go:159-167 | as written, `x, x` is kept twice and a second name after an existing one panics; as documented, neither happens |
| `NameAndNumber.ParseNaNFStr` | nanf.go:37-91 | the parser with its character loop returns the pair `ParseNaNF` defines |
| `NameAndNumber.ScanIdentifierNone` | nanf.go:62-86 | the scan passes iff a scanned first character is lower-case and every scanned character is a letter, digit or hyphen |
| `NameAndNumber.ParseNaNFSuccess` | nanf.go:37-91 | on success the text ends in `)`, the identifier is the text before the first `(`, and the number is the value of the digits between it and the final `)` |
| `NameAndNumber.ParseNaNFErrors` | nanf.go:38-80 | empty input, no final `)`, no `(`, non-digits in the parentheses, a bad scanned character or a bad scanned first character each give an error |
| `NameAndNumber.ParseOfString` | nanf.go:24-30 | parsing the rendering of an arc whose identifier follows the grammar gives that arc back, hence an Equal one |
| `NameAndNumber.NewOfString` | nanf.go:93-102 | constructing from an arc's rendering gives that arc back, with or without an identifier |
| `NameAndNumber.NewNameAndNumberForm` | nanf.go:93-117 | a result without an error always holds a value; a non-string input that gives a value gives one with no identifier and no error |
| `NameAndNumber.NewNameAndNumberFormCases` | nanf.go:93-117 | digit string, uint or non-negative int give an arc with no identifier and that number; a negative int or another type fails |
| `NameAndNumber.String` | nanf.go:24-30 | a bare number renders as its decimal digits; otherwise the identifier, `(`, the decimal digits of the number and `)` |
| `NameAndNumber.Equal` | nanf.go:32-35 | true iff the numbers are equal and the identifiers have the same length and agree character by character up to ASCII case |
| `NameAndNumber.IsZero` | nanf.go:12-14 | as written, true whenever the identifier is empty or the number is 0, and for a one-character identifier exactly when the number is even |
| `NameAndNumber.EqualIsEquivalence` | nanf.go:32-35 | Equal (identifier up to case, same number) is reflexive, symmetric and transitive |
| `NameAndNumber.SingleCharIdentifierUnchecked` | nanf.go:62 | `A(1)` is accepted, though `A` breaks the identifier grammar |
| `NameAndNumber.TrailingHyphenAccepted` | nanf.go:62-85 | `ab-(1)` is accepted with identifier `ab-` |
| `NameAndNumber.EmptyNumberIsZero` | nanf.go:53-60 | `foo()` gives identifier `foo` and number 0 |
| `NameAndNumber.BadNumberKeepsValue` | nanf.go:51-57 | `foo(x)` returns an error together with a non-nil zero value |
| `NameAndNumber.LeadingParenPanics` | nanf.go:62 | `(1)` panics on the slice `x[:-1]` |
| `NameAndNumber.IsZeroAsWrittenCounterexample` | nanf.go:12-14 | with bitwise AND, `ab(1)` and a bare `5` are reported as zero |
| `NameAndNumber.IsZeroIntendedIff` | nanf.go:12-14 | with bitwise OR, IsZero holds exactly of the empty arc with number 0 |
| `NameAndNumber.BitOrZero` | nanf.go:13 | a bitwise OR is zero iff both operands are |
| `Misc.IsDigit` | misc.go:58-66 | true iff every character is `0`-`9`; true of the empty string |
| `Misc.StrInSlice` | misc.go:41-53 | true iff the string is non-empty and some element equals it up to case; false for an empty string or slice |
| `Misc.InSliceFoldCase` | misc.go:46-52 | membership does not depend on the case of the probe |
| `Misc.SliceEqual` | misc.go:71-102 | true iff both slices are equal and non-empty (two empty slices are unequal) |
| `Misc.SameNonEmptySymmetric` | misc.go:71-102 | slice equality is symmetric |
| `Registry.ObjectIdentifierMap.Set` | oids.go:12-18 | the map holds `x` at `key`, and every other key is unchanged |
| `Registry.ObjectIdentifierMap.New` | oids.go:20-33 | on a parse error, returns it and leaves the map unchanged; otherwise stores a fresh, Valid object holding the parse at `key`, and nothing else changes |
| `Registry.ObjectIdentifierMap.Get` | oids.go:35-52 | a hit is a non-nil entry whose value Equals the term or whose key equals a string term up to case; a miss means no entry matches and none is nil; otherwise the scan reached a nil entry |
| `Registry.ObjectIdentifierMap.Exists` | oids.go:7-10 | the found flag of Get: true only if some non-nil entry matches, false only if none does |

## Findings

| source | as written | input that shows it | evidently intended | confidence | as-written member | corrected member |
|---|---|---|---|---|---|---|
| oid.go:159-167 | the inner loop tests and increments `i` instead of `j`, and its `continue` skips nothing | no alt names and names `x, x` gives `x, x`; alt names `a` and name `b` index `name[1]` out of range | append each name unless it is already present up to case, as the comment at oid.go:155 says | high (not executed) | `Oid.SetAltNamesAsWrittenCounterexamples` | `Oid.ObjectIdentifier.SetAltNames` |
| nanf.go:12-14 | `len(identifier) & primaryIdentifier == 0` | identifier `ab`, number 1 is reported as zero | `len(identifier) \| primaryIdentifier == 0`, the idiom misc.go:72 uses for "both empty" | medium (not executed) | `NameAndNumber.IsZeroAsWrittenCounterexample` | `NameAndNumber.IsZeroIntendedIff` |

## Left out

- doc.go holds only the package comment.
- The `sync.Mutex` in `Set` and `New` is not modelled. Each call creates a fresh lock, so it orders nothing, and concurrency is out of scope.
- Go's random map iteration order is modelled as a nondeterministic choice of the next key in `Get`.
- Error messages from `errorf` (misc.go:30-39, oid.go:271-280) are not modelled. Errors are datatype values naming the failure.
- `encoding/asn1` is not part of this model. `ASN1()` is the `ints` field, and its `String()` is `DotNotation`.
- `strings.EqualFold` is modelled as ASCII case folding only. Strings are sequences of characters, so offsets match Go's byte offsets only for ASCII. `Fields` splits on ASCII white space only, and on no non-ASCII white space.
- Integers are unbounded. `Atoi` overflow and the widths of `int` and `uint` are not modelled.
- The copies of `isDigit`, `errorf`, `intSliceEqual` and `strSliceEqual` in oid.go:258-316 are modelled once, from misc.go.
- The `len(f[i]) == 0` branch at oid.go:201-204 has no counterpart. `strings.Fields` never returns an empty field.
- The pointer `IsZero` at oid.go:97-99 is not modelled. `Valid` calls it on a value receiver (oid.go:105), so it is never true. A missing OID is `null`.
- The function-variable aliases at misc.go:10-28 stand for the Go library calls. They are the functions of module `Text`, and `contains`, `hasPrefix`, `hasSuffix`, `splitAfter` and `splitN` are not used by the modelled code. `sprintf` is used at nanf.go:29, which `NameAndNumber.String` writes as concatenation, and inside `errorf`, whose messages are left out.
- No lemma evaluates `Parse` on a complete literal input string. The worked examples are per field (`Oid.LabelExample`, `Oid.LeadingDigitAccepted`). Whole inputs are covered by the general lemmas `Oid.ParseArcsShape` and `Oid.ParseOfNameForm`.
- Oid.ObjectIdentifier.Valid: Go reads `ints[0]` without a length check (oid.go:122) and panics on an OID with no arcs, as for the input `{    }`. Here that case gives `false` from `Valid` and `Err(Invalid)` from `Parse`, not an `IndexOutOfRange` error.
