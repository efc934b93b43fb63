/**
 * checkFormat of FieldValueValidator, as a specification: the format string is
 * parsed against %([\+,-])?([0-9]+)(\.([0-9]+))?([doxfeEs]) and the value is then
 * checked for justification, specifier, width and precision. The method that
 * emits these problems one by one is FieldValueValidator.CheckFormat.
 */
module FieldFormat {
  import opened Wrappers
  import opened JavaText
  import opened FieldTypes
  import opened Problems

  const MAX_INT: int := 0x7FFF_FFFF

  /** [\+,-]: the comma is admitted and selects no justification check. */
  predicate IsFlag(c: char) { c == '+' || c == ',' || c == '-' }

  /** [doxfeEs] */
  predicate IsSpecifier(c: char) {
    c == 'd' || c == 'o' || c == 'x' || c == 'f' || c == 'e' || c == 'E' || c == 's'
  }

  /** The groups of formatPattern: 1 (flag), 2 (width), 4 (precision) and 5 (specifier). */
  datatype FormatSpec = FormatSpec(flag: Option<char>, width: string, precision: Option<string>, specifier: char)

  predicate WellFormed(f: FormatSpec) {
    (f.flag.Some? ==> IsFlag(f.flag.value))
    && IsDigitRun(f.width)
    && (f.precision.Some? ==> IsDigitRun(f.precision.value))
    && IsSpecifier(f.specifier)
  }

  /** [0-9]+(\.[0-9]+)? written out: the width and, after a '.', the precision. */
  function RenderNumbers(width: string, precision: Option<string>): string {
    width + (if precision.Some? then "." + precision.value else "")
  }

  /** What lies between the '%' and the specifier. */
  function RenderBody(f: FormatSpec): string {
    (if f.flag.Some? then [f.flag.value] else "") + RenderNumbers(f.width, f.precision)
  }

  /** The format string a FormatSpec stands for. */
  function Render(f: FormatSpec): string {
    "%" + RenderBody(f) + [f.specifier]
  }

  /** [0-9]+(\.[0-9]+)? split into the width and the optional precision. */
  function ParseNumbers(s: string): Option<(string, Option<string>)> {
    var k := IndexOf(s, '.');
    if k == |s| then (if IsDigitRun(s) then Some((s, None)) else None)
    else if IsDigitRun(s[..k]) && IsDigitRun(s[k + 1..]) then Some((s[..k], Some(s[k + 1..])))
    else None
  }

  /** ([\+,-])?([0-9]+)(\.([0-9]+))? followed by the given specifier. */
  function ParseBody(body: string, specifier: char): Option<FormatSpec>
    requires body != []
  {
    var flag := if IsFlag(body[0]) then Some(body[0]) else None;
    match ParseNumbers(if flag.Some? then body[1..] else body)
    case None => None
    case Some(numbers) => Some(FormatSpec(flag, numbers.0, numbers.1, specifier))
  }

  /** formatPattern.matcher(format).matches(), with its groups. */
  function ParseFormat(format: string): Option<FormatSpec> {
    if |format| < 3 || format[0] != '%' || !IsSpecifier(format[|format| - 1]) then None
    else ParseBody(format[1..|format| - 1], format[|format| - 1])
  }

  /** The first occurrence of c in a + b lies in b when a has none. */
  lemma {:induction false} IndexOfAfterPrefix(a: string, b: string, c: char)
    requires IndexOf(a, c) == |a| && b != [] && b[0] == c
    ensures IndexOf(a + b, c) == |a|
  {
    if a != [] {
      assert (a + b)[1..] == a[1..] + b;
      IndexOfAfterPrefix(a[1..], b, c);
    } else {
      assert a + b == b;
    }
  }

  lemma NumbersParseRender(width: string, precision: Option<string>)
    requires IsDigitRun(width) && (precision.Some? ==> IsDigitRun(precision.value))
    ensures ParseNumbers(RenderNumbers(width, precision)) == Some((width, precision))
  {
    var s := RenderNumbers(width, precision);
    assert IndexOf(width, '.') == |width|;
    if precision.Some? {
      var tail := "." + precision.value;
      assert s == width + tail;
      IndexOfAfterPrefix(width, tail, '.');
      assert s[..|width|] == width;
      assert s[|width| + 1..] == precision.value;
      assert ParseNumbers(s) == Some((s[..|width|], Some(s[|width| + 1..])));
    } else {
      assert s == width;
    }
  }

  lemma NumbersRenderParse(s: string)
    requires ParseNumbers(s).Some?
    ensures RenderNumbers(ParseNumbers(s).value.0, ParseNumbers(s).value.1) == s
  {
    var k := IndexOf(s, '.');
    if k < |s| {
      assert s == s[..k] + "." + s[k + 1..];
    }
  }

  lemma BodyParseRender(f: FormatSpec)
    requires WellFormed(f)
    ensures ParseBody(RenderBody(f), f.specifier) == Some(f)
  {
    var body := RenderBody(f);
    var numbers := RenderNumbers(f.width, f.precision);
    NumbersParseRender(f.width, f.precision);
    if f.flag.Some? {
      assert body[0] == f.flag.value && body[1..] == numbers;
    } else {
      assert body == numbers && body[0] == f.width[0];
    }
  }

  /** Parsing a rendered format gives back its groups. */
  lemma ParseRender(f: FormatSpec)
    requires WellFormed(f)
    ensures ParseFormat(Render(f)) == Some(f)
  {
    var s := Render(f);
    assert s[1..|s| - 1] == RenderBody(f) && s[0] == '%' && s[|s| - 1] == f.specifier;
    BodyParseRender(f);
  }

  lemma BodyRenderParse(body: string, specifier: char)
    requires body != [] && ParseBody(body, specifier).Some?
    ensures RenderBody(ParseBody(body, specifier).value) == body
  {
    var rest := if IsFlag(body[0]) then body[1..] else body;
    NumbersRenderParse(rest);
    if IsFlag(body[0]) { assert body == [body[0]] + rest; }
  }

  /** A format string that parses is exactly the rendering of its groups. */
  lemma RenderParse(format: string)
    requires ParseFormat(format).Some?
    ensures Render(ParseFormat(format).value) == format
  {
    var body := format[1..|format| - 1];
    var spec := format[|format| - 1];
    var f := ParseFormat(format).value;
    assert f == ParseBody(body, spec).value && f.specifier == spec;
    BodyRenderParse(body, spec);
    assert RenderBody(f) == body;
    assert format == [format[0]] + body + [spec];
  }

  /** The groups of a parsed format are the ones formatPattern admits. */
  lemma ParseFormatWellFormed(format: string)
    requires ParseFormat(format).Some?
    ensures WellFormed(ParseFormat(format).value)
  {
  }

  // ---------------------------------------------------------------------
  // Integer.parseInt of the width and precision groups

  /**
   * Integer.parseInt on a group of [0-9]+: None is the NumberFormatException of a
   * value above 2^31 - 1, which checkFormat does not catch.
   */
  function ParseInt(s: string): (r: Option<nat>)
    ensures r.Some? <==> IsDigitRun(s) && DecimalValue(s) <= MAX_INT
    ensures r.Some? ==> r.value == DecimalValue(s)
  {
    if IsDigitRun(s) && DecimalValue(s) <= MAX_INT then Some(DecimalValue(s)) else None
  }

  // ---------------------------------------------------------------------
  // The sub-checks

  /** trailingWhiteSpacePattern .*\s+ */
  predicate HasTrailingWhitespace(v: string) {
    exists k | 0 <= k < |v| :: NoLineTerminator(v[..k]) && AllRegexSpace(v[k..])
  }

  /** leadingWhiteSpacePattern \s+.* */
  predicate HasLeadingWhitespace(v: string) {
    exists k | 0 < k <= |v| :: AllRegexSpace(v[..k]) && NoLineTerminator(v[k..])
  }

  /** A value ending in a character other than \s never matches .*\s+ */
  lemma NoTrailingWhitespace(v: string)
    requires v != [] && !IsRegexSpace(v[|v| - 1])
    ensures !HasTrailingWhitespace(v)
  {
    forall k | 0 <= k < |v| ensures !AllRegexSpace(v[k..]) {
      assert v[k..][|v| - 1 - k] == v[|v| - 1];
    }
  }

  /** A value starting with a character other than \s never matches \s+.* */
  lemma NoLeadingWhitespace(v: string)
    requires v != [] && !IsRegexSpace(v[0])
    ensures !HasLeadingWhitespace(v)
  {
    forall k | 0 < k <= |v| ensures !AllRegexSpace(v[..k]) {
      assert v[..k][0] == v[0];
    }
  }

  /**
   * new BigInteger(t) raises no NumberFormatException: an optional sign, then at
   * least one char that Character.digit accepts in radix 10, which includes the
   * decimal digits of every script and not only '0'-'9'.
   */
  predicate IsBigIntegerLexeme(t: string) {
    |t| > 0 && if t[0] == '+' || t[0] == '-' then IsUnicodeDigitRun(t[1..]) else IsUnicodeDigitRun(t)
  }

  /** At least one char, each a decimal digit of some script. */
  predicate IsUnicodeDigitRun(s: string) {
    |s| > 0 && AllUnicodeDigits(s)
  }

  predicate AllUnicodeDigits(s: string) {
    s == [] || (CharacterDigit(s[0]) >= 0 && AllUnicodeDigits(s[1..]))
  }

  /** Some char has a nonzero digit value. */
  predicate HasNonzeroDigit(s: string) {
    s != [] && (CharacterDigit(s[0]) > 0 || HasNonzeroDigit(s[1..]))
  }

  /** t is negative in the sense of BigInteger.signum() == -1: a '-' and some nonzero digit ("-0" is not). */
  predicate IsNegative(t: string)
    requires IsBigIntegerLexeme(t)
  {
    t[0] == '-' && HasNonzeroDigit(t[1..])
  }

  /**
   * The specifier branch on value.trim(): true when it raises no
   * NumberFormatException. "e", "E" and "f" match an ASCII pattern; "d", "o"
   * and "x" all go through new BigInteger(t), and "o" and "x" refuse a negative
   * number.
   */
  predicate SpecifierAccepts(specifier: char, t: string) {
    if specifier == 'e' || specifier == 'E' then IsMantissaWithExponent(Unsigned(t))
    else if specifier == 'f' then IsMantissa(Unsigned(t))
    else if specifier == 'd' then IsBigIntegerLexeme(t)
    else if specifier == 'o' || specifier == 'x' then IsBigIntegerLexeme(t) && !IsNegative(t)
    else true
  }

  predicate IsAscii(s: string) { forall i | 0 <= i < |s| :: s[i] as int < 0x80 }

  /**
   * On ASCII text the BigInteger lexeme is the integer lexeme [+-]?[0-9]+, and
   * negative means a '-' before a nonzero number.
   */
  lemma BigIntegerOnAscii(t: string)
    requires IsAscii(t)
    ensures IsBigIntegerLexeme(t) <==> IsSignedIntegerLexeme(t)
    ensures IsSignedIntegerLexeme(t) ==> (IsNegative(t) <==> t[0] == '-' && DecimalValue(t[1..]) > 0)
  {
    if t != [] {
      AsciiUnicodeDigits(t);
      AsciiUnicodeDigits(t[1..]);
      if IsSignedIntegerLexeme(t) && t[0] == '-' {
        NonzeroDigitIffPositive(t[1..]);
      }
    }
  }

  /** On ASCII text the digits of every script are just '0'-'9'. */
  lemma {:induction false} AsciiUnicodeDigits(s: string)
    requires IsAscii(s)
    ensures AllUnicodeDigits(s) <==> AllDigits(s)
  {
    if s != [] {
      AsciiCharacterDigit(s[0]);
      assert IsAscii(s[1..]) by {
        forall i | 0 <= i < |s| - 1 ensures s[1..][i] as int < 0x80 {
          assert s[1..][i] == s[i + 1];
        }
      }
      AsciiUnicodeDigits(s[1..]);
      assert AllDigits(s) <==> IsDigit(s[0]) && AllDigits(s[1..]) by {
        if IsDigit(s[0]) && AllDigits(s[1..]) {
          forall i | 0 <= i < |s| ensures IsDigit(s[i]) {
            if i > 0 { assert s[i] == s[1..][i - 1]; }
          }
        }
      }
    }
  }

  /** A digit run denotes a positive number exactly when one of its digits is not '0'. */
  lemma {:induction false} NonzeroDigitIffPositive(s: string)
    requires AllDigits(s)
    ensures DecimalValue(s) > 0 <==> HasNonzeroDigit(s)
    decreases |s|
  {
    if s != [] {
      var p := s[..|s| - 1];
      assert AllDigits(p);
      NonzeroDigitIffPositive(p);
      AsciiCharacterDigit(s[|s| - 1]);
      NonzeroDigitSplit(s);
    }
  }

  /** A nonzero digit lies in the prefix or is the last char. */
  lemma {:induction false} NonzeroDigitSplit(s: string)
    requires s != []
    ensures HasNonzeroDigit(s) <==> HasNonzeroDigit(s[..|s| - 1]) || CharacterDigit(s[|s| - 1]) > 0
    decreases |s|
  {
    if |s| > 1 {
      NonzeroDigitSplit(s[1..]);
      assert s[1..][..|s[1..]| - 1] == s[..|s| - 1][1..];
      assert s[1..][|s[1..]| - 1] == s[|s| - 1];
    }
  }

  /**
   * BigInteger reads the decimal digits of any script: the Arabic-Indic 12
   * (U+0661 U+0662) suits "d", and minus the Arabic-Indic zero (U+0660) is zero,
   * not negative, so it suits "x".
   */
  lemma ArabicIndicDigitsSuitIntegerSpecifiers()
    ensures SpecifierAccepts('d', "\U{0661}\U{0662}")
    ensures SpecifierAccepts('x', "-\U{0660}")
    ensures !SpecifierAccepts('x', "-\U{0661}")
    ensures !SpecifierAccepts('d', "\U{0661}-")
  {
    var twelve := "\U{0661}\U{0662}";
    ArabicIndicCharacterDigit(twelve[0]);
    ArabicIndicCharacterDigit(twelve[1]);
    assert twelve[1..][1..] == [];
    var minusZero := "-\U{0660}";
    assert minusZero[1..] == "\U{0660}";
    ArabicIndicCharacterDigit(minusZero[1]);
    assert minusZero[1..][1..] == [];
    var minusOne := "-\U{0661}";
    assert minusOne[1..] == "\U{0661}";
    ArabicIndicCharacterDigit(minusOne[1]);
    var oneMinus := "\U{0661}-";
    assert oneMinus[1..] == "-";
    AsciiCharacterDigit('-');
  }

  /** The Arabic-Indic 12 fits the format %5d: checkFormat reports only FORMAT_MATCH. */
  lemma ArabicIndicValueMatchesFormat(field: int)
    ensures FormatEmission("\U{0661}\U{0662}", "%5d", field) == Emission([TableProblem(Debug, FieldValueFormatMatch, field)], false)
  {
    var v := "\U{0661}\U{0662}";
    ArabicIndicDigitsSuitIntegerSpecifiers();
    TrimOfUntrimmable(v);
    assert "%5d"[1..2] == "5";
    assert IndexOf("5", '.') == 1;
    assert ParseFormat("%5d") == Some(FormatSpec(None, "5", None, 'd'));
    assert "5"[..0] == [];
    assert ParseInt("5") == Some(5);
  }

  /**
   * Three U+1F600 chars are six UTF-16 units, so they do not fit %2s even though
   * the value is only three chars long; no FORMAT_MATCH follows.
   */
  lemma SupplementaryValueTooLongForWidth(field: int)
    ensures FormatEmission("\U{1F600}\U{1F600}\U{1F600}", "%2s", field)
      == Emission([TableProblem(Error, FieldValueTooLong, field)], false)
  {
    var v := "\U{1F600}\U{1F600}\U{1F600}";
    SupplementaryCountsTwice();
    TrimOfUntrimmable(v);
    NoTrailingWhitespace(v);
    NoLeadingWhitespace(v);
    assert "%2s"[1..2] == "2";
    assert IndexOf("2", '.') == 1;
    assert ParseFormat("%2s") == Some(FormatSpec(None, "2", None, 's'));
    assert "2"[..0] == [];
    assert ParseInt("2") == Some(2);
  }

  /** Index of the first 'e' or 'E' (|t| when there is none). */
  function ExponentIndex(t: string): (k: nat)
    ensures k <= |t|
    ensures forall i | 0 <= i < k :: !IsExponentMark(t[i])
    ensures k < |t| ==> IsExponentMark(t[k])
  {
    if t == [] || IsExponentMark(t[0]) then 0 else 1 + ExponentIndex(t[1..])
  }

  /**
   * The precision the value shows: the length() in UTF-16 code units after the first '.' of
   * value.trim().split("[eE]", 2)[0], or 0 when that part has no '.'.
   */
  function FractionLength(t: string): (n: nat)
    ensures n <= Utf16Length(t)
  {
    var e := ExponentIndex(t);
    var mantissa := t[..e];
    var k := IndexOf(mantissa, '.');
    if k == |mantissa| then 0
    else
      assert mantissa == mantissa[..k + 1] + mantissa[k + 1..];
      assert t == mantissa + t[e..];
      Utf16LengthAppend(mantissa[..k + 1], mantissa[k + 1..]);
      Utf16LengthAppend(mantissa, t[e..]);
      Utf16Length(mantissa[k + 1..])
  }

  /**
   * The problems checkFormat emits once the format has parsed, in emission order,
   * from the outcome of each sub-check.
   */
  function Assemble(notRight: bool, notLeft: bool, specifierOk: bool, tooLong: bool, imprecise: bool, field: int): seq<TableProblem> {
    (if notRight then [TableProblem(Error, FieldValueNotRightJustified, field)]
     else if notLeft then [TableProblem(Error, FieldValueNotLeftJustified, field)] else [])
    + (if specifierOk then [] else [TableProblem(Error, FieldValueFormatSpecifierMismatch, field)])
    + (if tooLong then [TableProblem(Error, FieldValueTooLong, field)] else [])
    + (if imprecise then [TableProblem(Error, FieldValueFormatPrecisionMismatch, field)] else [])
    + (if !notRight && !notLeft && !tooLong && !imprecise then [TableProblem(Debug, FieldValueFormatMatch, field)] else [])
  }

  /** The problems of a format that parsed and whose numbers fit an int. */
  function CheckedProblems(value: string, f: FormatSpec, width: nat, precision: Option<nat>, field: int): seq<TableProblem> {
    var t := Trim(value);
    Assemble(
      f.flag == Some('+') && HasTrailingWhitespace(value),
      f.flag == Some('-') && HasLeadingWhitespace(value),
      SpecifierAccepts(f.specifier, t),
      Utf16Length(t) > width,
      precision.Some? && (f.specifier == 'f' || IsExponentMark(f.specifier)) && FractionLength(t) != precision.value,
      field)
  }

  /**
   * What checkFormat(value, format, field) emits. It emits nothing when the format
   * does not match formatPattern, and throws when the width or precision overflows
   * an int. FORMAT_MATCH follows unless the justification, width or precision
   * check failed; a specifier mismatch does not suppress it.
   */
  function FormatEmission(value: string, format: string, field: int): Emission {
    match ParseFormat(format)
    case None => Emission([], false)
    case Some(f) =>
      var width := ParseInt(f.width);
      var precision := if f.precision.Some? then ParseInt(f.precision.value) else None;
      if width.None? || (f.precision.Some? && precision.None?) then Emission([], true)
      else Emission(CheckedProblems(value, f, width.value, precision, field), false)
  }

  // ---------------------------------------------------------------------
  // Properties

  /**
   * Each kind is present exactly when its sub-check failed, and FORMAT_MATCH exactly
   * when none of the justification, width and precision checks did (at most one
   * justification problem can arise, since the flag is one character).
   */
  lemma AssembleKinds(notRight: bool, notLeft: bool, specifierOk: bool, tooLong: bool, imprecise: bool, field: int)
    requires !(notRight && notLeft)
    ensures var ps := Assemble(notRight, notLeft, specifierOk, tooLong, imprecise, field);
      && (HasKind(ps, FieldValueNotRightJustified) <==> notRight)
      && (HasKind(ps, FieldValueNotLeftJustified) <==> notLeft)
      && (HasKind(ps, FieldValueFormatSpecifierMismatch) <==> !specifierOk)
      && (HasKind(ps, FieldValueTooLong) <==> tooLong)
      && (HasKind(ps, FieldValueFormatPrecisionMismatch) <==> imprecise)
      && (HasKind(ps, FieldValueFormatMatch) <==> !notRight && !notLeft && !tooLong && !imprecise)
  {
    var nr := TableProblem(Error, FieldValueNotRightJustified, field);
    var nl := TableProblem(Error, FieldValueNotLeftJustified, field);
    var sm := TableProblem(Error, FieldValueFormatSpecifierMismatch, field);
    var tl := TableProblem(Error, FieldValueTooLong, field);
    var pm := TableProblem(Error, FieldValueFormatPrecisionMismatch, field);
    var fm := TableProblem(Debug, FieldValueFormatMatch, field);
    var ok := !notRight && !notLeft && !tooLong && !imprecise;
    var j := if notRight || notLeft then [if notRight then nr else nl] else [];
    var sp := if !specifierOk then [sm] else [];
    var w := if tooLong then [tl] else [];
    var pr := if imprecise then [pm] else [];
    var m := if ok then [fm] else [];
    assert Assemble(notRight, notLeft, specifierOk, tooLong, imprecise, field) == j + sp + w + pr + m;
    forall k: ProblemType
      ensures HasKind(j + sp + w + pr + m, k) <==>
        ((notRight || notLeft) && (if notRight then nr else nl).kind == k) || (!specifierOk && k == sm.kind)
        || (tooLong && k == tl.kind) || (imprecise && k == pm.kind) || (ok && k == fm.kind)
    {
      HasKindAppend5(j, sp, w, pr, m, k);
      HasKindOptional(notRight || notLeft, if notRight then nr else nl, k);
      HasKindOptional(!specifierOk, sm, k);
      HasKindOptional(tooLong, tl, k);
      HasKindOptional(imprecise, pm, k);
      HasKindOptional(ok, fm, k);
    }
  }

  /** Every problem is reported at the given field, and only FORMAT_MATCH is Debug. */
  lemma AssembleFields(notRight: bool, notLeft: bool, specifierOk: bool, tooLong: bool, imprecise: bool, field: int)
    ensures forall p | p in Assemble(notRight, notLeft, specifierOk, tooLong, imprecise, field) ::
      p.field == field && (p.severity == Debug <==> p.kind == FieldValueFormatMatch)
  {
  }

  /** The kinds checkFormat reports. */
  predicate IsFormatKind(k: ProblemType) {
    k == FieldValueNotRightJustified || k == FieldValueNotLeftJustified || k == FieldValueFormatSpecifierMismatch
    || k == FieldValueTooLong || k == FieldValueFormatPrecisionMismatch || k == FieldValueFormatMatch
  }

  /** checkFormat reports nothing but its own six kinds. */
  lemma FormatProblemKinds(value: string, format: string, field: int)
    ensures forall p | p in FormatEmission(value, format, field).problems :: IsFormatKind(p.kind)
  {
    var e := FormatEmission(value, format, field);
    if ParseFormat(format).Some? && !e.threw {
      var f := ParseFormat(format).value;
      var t := Trim(value);
      AssembleFormatKinds(f.flag == Some('+') && HasTrailingWhitespace(value), f.flag == Some('-') && HasLeadingWhitespace(value),
        SpecifierAccepts(f.specifier, t), Utf16Length(t) > DecimalValue(f.width),
        f.precision.Some? && (f.specifier == 'f' || IsExponentMark(f.specifier)) && FractionLength(t) != DecimalValue(f.precision.value),
        field);
    }
  }

  lemma AssembleFormatKinds(notRight: bool, notLeft: bool, specifierOk: bool, tooLong: bool, imprecise: bool, field: int)
    ensures forall p | p in Assemble(notRight, notLeft, specifierOk, tooLong, imprecise, field) :: IsFormatKind(p.kind)
  {
  }

  /** FORMAT_MATCH comes once at most. */
  lemma AssembleMatchOnce(notRight: bool, notLeft: bool, specifierOk: bool, tooLong: bool, imprecise: bool, field: int)
    ensures CountKind(Assemble(notRight, notLeft, specifierOk, tooLong, imprecise, field), FieldValueFormatMatch) <= 1
  {
    var j := if notRight then [TableProblem(Error, FieldValueNotRightJustified, field)]
      else if notLeft then [TableProblem(Error, FieldValueNotLeftJustified, field)] else [];
    var sp := if specifierOk then [] else [TableProblem(Error, FieldValueFormatSpecifierMismatch, field)];
    var w := if tooLong then [TableProblem(Error, FieldValueTooLong, field)] else [];
    var pr := if imprecise then [TableProblem(Error, FieldValueFormatPrecisionMismatch, field)] else [];
    var m := if !notRight && !notLeft && !tooLong && !imprecise then [TableProblem(Debug, FieldValueFormatMatch, field)] else [];
    var front := j + sp + w + pr;
    assert Assemble(notRight, notLeft, specifierOk, tooLong, imprecise, field) == front + m;
    assert !HasKind(front, FieldValueFormatMatch) by {
      forall p | p in front ensures p.kind != FieldValueFormatMatch {
      }
    }
    CountKindAppend(front, m, FieldValueFormatMatch);
  }

  /** A format outside formatPattern is silently ignored. */
  lemma UnparsedFormatEmitsNothing(value: string, format: string, field: int)
    requires ParseFormat(format).None?
    ensures FormatEmission(value, format, field) == Emission([], false)
  {
  }

  /** checkFormat throws exactly when the width or the precision does not fit an int, and then emits nothing. */
  lemma FormatThrowsOnOverflow(value: string, format: string, field: int)
    requires ParseFormat(format).Some?
    ensures var f := ParseFormat(format).value;
      FormatEmission(value, format, field).threw <==>
        (DecimalValue(f.width) > MAX_INT || (f.precision.Some? && DecimalValue(f.precision.value) > MAX_INT))
    ensures FormatEmission(value, format, field).threw ==> FormatEmission(value, format, field).problems == []
  {
    ParseFormatWellFormed(format);
  }

  /** Every problem is reported at the given field, only FORMAT_MATCH is Debug, and it comes once at most. */
  lemma FormatProblemsAtField(value: string, format: string, field: int)
    ensures var ps := FormatEmission(value, format, field).problems;
      (forall p | p in ps :: p.field == field && (p.severity == Debug <==> p.kind == FieldValueFormatMatch))
      && CountKind(ps, FieldValueFormatMatch) <= 1
  {
    var e := FormatEmission(value, format, field);
    if ParseFormat(format).Some? && !e.threw {
      var f := ParseFormat(format).value;
      var t := Trim(value);
      AssembleFields(f.flag == Some('+') && HasTrailingWhitespace(value), f.flag == Some('-') && HasLeadingWhitespace(value),
        SpecifierAccepts(f.specifier, t), Utf16Length(t) > DecimalValue(f.width),
        f.precision.Some? && (f.specifier == 'f' || IsExponentMark(f.specifier)) && FractionLength(t) != DecimalValue(f.precision.value),
        field);
      AssembleMatchOnce(f.flag == Some('+') && HasTrailingWhitespace(value), f.flag == Some('-') && HasLeadingWhitespace(value),
        SpecifierAccepts(f.specifier, t), Utf16Length(t) > DecimalValue(f.width),
        f.precision.Some? && (f.specifier == 'f' || IsExponentMark(f.specifier)) && FractionLength(t) != DecimalValue(f.precision.value),
        field);
    }
  }

  /**
   * Each sub-check reports its problem exactly when its condition holds, and
   * FORMAT_MATCH is emitted exactly when none of NOT_RIGHT_JUSTIFIED,
   * NOT_LEFT_JUSTIFIED, TOO_LONG and PRECISION_MISMATCH is.
   */
  lemma FormatChecks(value: string, format: string, field: int)
    requires ParseFormat(format).Some? && !FormatEmission(value, format, field).threw
    ensures var f := ParseFormat(format).value; var t := Trim(value);
      var ps := FormatEmission(value, format, field).problems;
      && (HasKind(ps, FieldValueNotRightJustified) <==> f.flag == Some('+') && HasTrailingWhitespace(value))
      && (HasKind(ps, FieldValueNotLeftJustified) <==> f.flag == Some('-') && HasLeadingWhitespace(value))
      && (HasKind(ps, FieldValueFormatSpecifierMismatch) <==> !SpecifierAccepts(f.specifier, t))
      && (HasKind(ps, FieldValueTooLong) <==> Utf16Length(t) > DecimalValue(f.width))
      && (HasKind(ps, FieldValueFormatPrecisionMismatch) <==>
            (f.precision.Some? && (f.specifier == 'f' || IsExponentMark(f.specifier))
             && FractionLength(t) != DecimalValue(f.precision.value)))
      && (HasKind(ps, FieldValueFormatMatch) <==>
            (!HasKind(ps, FieldValueNotRightJustified) && !HasKind(ps, FieldValueNotLeftJustified)
             && !HasKind(ps, FieldValueTooLong) && !HasKind(ps, FieldValueFormatPrecisionMismatch)))
  {
    var f := ParseFormat(format).value;
    ParseFormatWellFormed(format);
    var t := Trim(value);
    AssembleKinds(f.flag == Some('+') && HasTrailingWhitespace(value), f.flag == Some('-') && HasLeadingWhitespace(value),
      SpecifierAccepts(f.specifier, t), Utf16Length(t) > DecimalValue(f.width),
      f.precision.Some? && (f.specifier == 'f' || IsExponentMark(f.specifier)) && FractionLength(t) != DecimalValue(f.precision.value),
      field);
  }

  // ---------------------------------------------------------------------
  // The format %+8.2f on three values

  lemma PlusEightTwoParses()
    ensures ParseFormat("%+8.2f") == Some(FormatSpec(Some('+'), "8", Some("2"), 'f'))
  {
    var format := "%+8.2f";
    assert format[1..|format| - 1] == "+8.2";
    assert "+8.2"[1..] == "8.2";
    assert IndexOf("8.2", '.') == 1;
    assert "8.2"[..1] == "8" && "8.2"[2..] == "2";
  }

  /** What checkFormat does with %+8.2f, given the outcome of each sub-check on the value. */
  lemma PlusEightTwoEmission(value: string, trailing: bool, floatOk: bool, tooLong: bool, imprecise: bool, field: int)
    requires trailing == HasTrailingWhitespace(value)
    requires floatOk == IsMantissa(Unsigned(Trim(value)))
    requires tooLong == (Utf16Length(Trim(value)) > 8)
    requires imprecise == (FractionLength(Trim(value)) != 2)
    ensures FormatEmission(value, "%+8.2f", field) == Emission(Assemble(trailing, false, floatOk, tooLong, imprecise, field), false)
  {
    PlusEightTwoParses();
    EightAndTwo();
    var f := FormatSpec(Some('+'), "8", Some("2"), 'f');
    assert FormatEmission(value, "%+8.2f", field) == Emission(CheckedProblems(value, f, 8, Some(2), field), false);
  }

  lemma EightAndTwo()
    ensures ParseInt("8") == Some(8) && ParseInt("2") == Some(2)
  {
    assert "8"[1..] == [] && "2"[1..] == [];
    assert DecimalValue("8") == 8 && DecimalValue("2") == 2;
  }

  /** 3.14 is a float of precision two. */
  lemma ThreeFourteen()
    ensures IsMantissa(Unsigned("3.14")) && FractionLength("3.14") == 2
  {
    var t := "3.14";
    assert Unsigned(t) == t;
    assert t[..1] == "3" && t[2..] == "14";
    assert ExponentIndex(t) == 4;
    assert t[..4] == t;
    assert IndexOf(t, '.') == 1;
  }

  /** 3.140 is a float of precision three. */
  lemma ThreeFourteenZero()
    ensures IsMantissa(Unsigned("3.140")) && FractionLength("3.140") == 3
  {
    var t := "3.140";
    assert Unsigned(t) == t;
    assert t[..1] == "3" && t[2..] == "140";
    assert ExponentIndex(t) == 5;
    assert t[..5] == t;
    assert IndexOf(t, '.') == 1;
  }

  lemma LeadingSpacesTrimmed()
    ensures Trim("  3.14") == "3.14" && !HasTrailingWhitespace("  3.14")
  {
    var v := "  3.14";
    assert TrimStart(v) == 2 && TrimEnd(v) == 6;
    assert v[2..6] == "3.14";
    NoTrailingWhitespace(v);
  }

  lemma TrailingSpacesTrimmed()
    ensures Trim("3.14  ") == "3.14" && HasTrailingWhitespace("3.14  ")
  {
    var v := "3.14  ";
    assert TrimStart(v) == 0 && TrimEnd(v) == 4;
    assert v[0..4] == "3.14";
    assert NoLineTerminator(v[..4]) && AllRegexSpace(v[4..]);
  }

  /** "  3.14" is right-justified, a float, within eight characters and of precision two. */
  lemma RightJustifiedValueMatches(field: int)
    ensures FormatEmission("  3.14", "%+8.2f", field) == Emission([TableProblem(Debug, FieldValueFormatMatch, field)], false)
  {
    LeadingSpacesTrimmed();
    ThreeFourteen();
    PlusEightTwoEmission("  3.14", false, true, false, false, field);
  }

  /** "3.140" shows three fraction digits where the format asks for two. */
  lemma PrecisionMismatch(field: int)
    ensures FormatEmission("3.140", "%+8.2f", field)
      == Emission([TableProblem(Error, FieldValueFormatPrecisionMismatch, field)], false)
  {
    var v := "3.140";
    TrimOfUntrimmable(v);
    NoTrailingWhitespace(v);
    ThreeFourteenZero();
    PlusEightTwoEmission(v, false, true, false, true, field);
  }

  /** "3.14  " ends in spaces, so it is not right-justified, and no FORMAT_MATCH follows. */
  lemma TrailingSpacesNotRightJustified(field: int)
    ensures FormatEmission("3.14  ", "%+8.2f", field)
      == Emission([TableProblem(Error, FieldValueNotRightJustified, field)], false)
  {
    TrailingSpacesTrimmed();
    ThreeFourteen();
    PlusEightTwoEmission("3.14  ", true, true, false, false, field);
  }
}
