/**
 * checkType of FieldValueValidator: a closed dispatch over the declared field
 * type. Each branch is a small grammar written out as a predicate on the
 * characters of the value, followed by the conversion the source performs.
 * Date/time grammars, URI syntax and FilenameUtils are external and come in
 * through TypeOracles.
 */
module FieldTypes {
  import opened Wrappers
  import opened JavaText

  datatype FieldType =
    | AsciiInteger
    | AsciiNonNegativeInteger
    | AsciiReal
    | AsciiNumericBase2
    | AsciiNumericBase8
    | AsciiNumericBase16
    | AsciiMd5Checksum
    | AsciiAnyUri
    | AsciiDoi
    | AsciiLid
    | AsciiLidVid
    | AsciiLidVidLid
    | AsciiVid
    | AsciiString
    | Utf8String
    | AsciiDateDoy
    | AsciiDateTimeDoy
    | AsciiDateTimeDoyUtc
    | AsciiDateTimeYmd
    | AsciiDateTimeYmdUtc
    | AsciiDateYmd
    | AsciiTime
    | AsciiDirectoryPathName
    | AsciiFileName
    | AsciiFileSpecificationName
    | AsciiBibcode
    /** Every other field type (the binary types among them): checkType has no branch for it. */
    | Unchecked

  /** Why checkType threw; the message text itself is not modelled. */
  datatype Rejection =
    | NotAllowedToken
    | PatternMismatch
    | ConversionFailure
    | NonAsciiCharacter
    | EscapedWhitespace
    | TooLong
    | NoFileName
    | ExternalRejection

  datatype TypeVerdict = TypeOk | TypeRejected(reason: Rejection)

  /** The collaborators checkType calls and that are not part of this model. */
  datatype TypeOracles = TypeOracles(
    /** DateTimeValidator.isValid(type, value) */
    isValidDateTime: (FieldType, string) -> bool,
    /** new java.net.URI(value) succeeds */
    isValidUri: string -> bool,
    /** FilenameUtils.getFullPath(value) */
    fullPath: string -> string,
    /** FilenameUtils.getName(value) */
    fileName: string -> string)

  /** The tokens refused for every type (INF_NAN_VALUES). */
  const INF_NAN_VALUES: seq<string> := ["INF", "-INF", "+INF", "NAN", "-NAN", "+NAN"]

  /** Membership in INF_NAN_VALUES, with the tokens' length bound made explicit. */
  predicate IsInfNan(value: string) {
    |value| <= 4 && value in INF_NAN_VALUES
  }

  const MIN_LONG: int := -0x8000_0000_0000_0000
  const MAX_LONG: int := 0x7FFF_FFFF_FFFF_FFFF
  const MAX_UNSIGNED_LONG: int := 0xFFFF_FFFF_FFFF_FFFF
  const MAX_NAME_LENGTH: int := 255

  // ---------------------------------------------------------------------
  // Character classes (Java's \d is [0-9])

  predicate IsDigit(c: char) { '0' <= c <= '9' }
  predicate IsLower(c: char) { 'a' <= c <= 'z' }
  predicate IsUpper(c: char) { 'A' <= c <= 'Z' }
  predicate IsAlnum(c: char) { IsDigit(c) || IsLower(c) || IsUpper(c) }
  predicate IsHexDigit(c: char) { IsDigit(c) || 'a' <= c <= 'f' || 'A' <= c <= 'F' }
  predicate IsOctalDigit(c: char) { '0' <= c <= '7' }
  predicate IsBinaryDigit(c: char) { c == '0' || c == '1' }

  predicate AllDigits(s: string) { forall i | 0 <= i < |s| :: IsDigit(s[i]) }
  predicate AllLower(s: string) { forall i | 0 <= i < |s| :: IsLower(s[i]) }
  predicate AllAlnum(s: string) { forall i | 0 <= i < |s| :: IsAlnum(s[i]) }

  /** \d+ */
  predicate IsDigitRun(s: string) { |s| > 0 && AllDigits(s) }

  function DigitValue(c: char): (d: nat)
    requires IsDigit(c)
    ensures d < 10
  {
    c as int - '0' as int
  }

  /** The value of a string of decimal digits, most significant first. */
  function DecimalValue(s: string): nat
    requires AllDigits(s)
  {
    if s == [] then 0 else DecimalValue(s[..|s| - 1]) * 10 + DigitValue(s[|s| - 1])
  }

  function Pow10(n: nat): (p: nat)
    ensures p >= 1
  {
    if n == 0 then 1 else 10 * Pow10(n - 1)
  }

  /** A digit string of length n denotes a number below 10^n. */
  lemma {:induction false} DecimalValueBound(s: string)
    requires AllDigits(s)
    ensures DecimalValue(s) < Pow10(|s|)
  {
    if s != [] {
      DecimalValueBound(s[..|s| - 1]);
    }
  }

  /** The decimal rendering of a natural number (no leading zeros). */
  function Decimal(n: nat): (s: string)
    ensures IsDigitRun(s)
  {
    if n < 10 then [('0' as int + n) as char] else Decimal(n / 10) + [('0' as int + n % 10) as char]
  }

  /** DecimalValue reads back what Decimal writes. */
  lemma {:induction false} DecimalRoundTrip(n: nat)
    ensures DecimalValue(Decimal(n)) == n
  {
    if n >= 10 {
      DecimalRoundTrip(n / 10);
      var s := Decimal(n);
      assert s[..|s| - 1] == Decimal(n / 10);
    }
  }

  // ---------------------------------------------------------------------
  // Integers

  /** asciiIntegerPattern [+-]?\d+ */
  predicate IsSignedIntegerLexeme(s: string) {
    |s| > 0 && if s[0] == '+' || s[0] == '-' then IsDigitRun(s[1..]) else IsDigitRun(s)
  }

  /** asciiNonNegativeIntPattern [+]?\d+ */
  predicate IsNonNegativeIntegerLexeme(s: string) {
    |s| > 0 && if s[0] == '+' then IsDigitRun(s[1..]) else IsDigitRun(s)
  }

  /** The number an integer lexeme denotes. */
  function SignedValue(s: string): int
    requires IsSignedIntegerLexeme(s)
  {
    if s[0] == '-' then -(DecimalValue(s[1..]) as int) else if s[0] == '+' then DecimalValue(s[1..]) else DecimalValue(s)
  }

  /** Long.parseLong: an optional sign, at least one digit, and a value inside the signed 64-bit range. */
  function ParseLong(s: string): (r: Option<int>)
    ensures r.Some? ==> IsSignedIntegerLexeme(s) && MIN_LONG <= r.value <= MAX_LONG
  {
    if IsSignedIntegerLexeme(s) && MIN_LONG <= SignedValue(s) <= MAX_LONG then Some(SignedValue(s)) else None
  }

  /**
   * Guava's UnsignedLong.valueOf(String): digits only (the parser has no sign
   * handling), at most 2^64 - 1.
   */
  function ParseUnsignedLong(s: string): (r: Option<nat>)
    ensures r.Some? ==> IsDigitRun(s) && r.value <= MAX_UNSIGNED_LONG
  {
    if IsDigitRun(s) && DecimalValue(s) <= MAX_UNSIGNED_LONG then Some(DecimalValue(s)) else None
  }

  // ---------------------------------------------------------------------
  // Reals. (\+|-)?([0-9]+(\.[0-9]*)?|\.[0-9]+)([Ee](\+|-)?[0-9]+)?

  /** s without one leading '+' or '-'. */
  function Unsigned(s: string): string {
    if |s| > 0 && (s[0] == '+' || s[0] == '-') then s[1..] else s
  }

  /** [0-9]+(\.[0-9]*)?|\.[0-9]+ */
  predicate IsMantissa(s: string) {
    IsDigitRun(s)
    || exists k | 0 <= k < |s| :: s[k] == '.' && AllDigits(s[..k]) && AllDigits(s[k + 1..]) && |s| >= 2
  }

  predicate IsExponentMark(c: char) { c == 'e' || c == 'E' }

  /** [0-9]+(\.[0-9]*)?|\.[0-9]+ followed by [Ee](\+|-)?[0-9]+ */
  predicate IsMantissaWithExponent(u: string) {
    exists k | 0 <= k < |u| :: IsExponentMark(u[k]) && IsMantissa(u[..k]) && IsSignedIntegerLexeme(u[k + 1..])
  }

  /** asciiReal: the exponent is optional. */
  predicate IsRealLexeme(s: string) {
    IsMantissa(Unsigned(s)) || IsMantissaWithExponent(Unsigned(s))
  }

  // ---------------------------------------------------------------------
  // Identifiers

  /** asciiDoiPattern 10\.\S+/\S+ */
  predicate IsDoi(s: string) {
    |s| >= 6 && s[..3] == "10."
    && (forall i | 3 <= i < |s| :: !IsRegexSpace(s[i]))
    && exists p | 4 <= p < |s| - 1 :: s[p] == '/'
  }

  /** [0-9a-z-._] */
  predicate IsLidChar(c: char) { IsDigit(c) || IsLower(c) || c == '-' || c == '.' || c == '_' }

  /** ([0-9a-z-._]:?)+ : a colon only ever follows a LID character. */
  predicate IsLidTail(s: string) {
    |s| > 0 && IsLidChar(s[0])
    && forall i | 0 < i < |s| :: IsLidChar(s[i]) || (s[i] == ':' && IsLidChar(s[i - 1]))
  }

  /** asciiLidPattern urn:[a-z]+:[a-z]+:([0-9a-z-._]:?)+ */
  predicate IsLid(s: string) {
    |s| > 4 && s[..4] == "urn:"
    && exists i, j | 4 < i && i + 1 < j && j + 1 < |s| ::
         AllLower(s[4..i]) && s[i] == ':' && AllLower(s[i + 1..j]) && s[j] == ':' && IsLidTail(s[j + 1..])
  }

  /** [1-9][0-9]*\.[0-9]+ */
  predicate IsMajorMinor(s: string) {
    exists k | 1 <= k < |s| - 1 :: '1' <= s[0] <= '9' && AllDigits(s[1..k]) && s[k] == '.' && IsDigitRun(s[k + 1..])
  }

  /** asciiLidVidPattern (and the identical asciiLidVidLidPattern): a LID, "::", a version. */
  predicate IsLidVid(s: string) {
    exists k | 0 <= k <= |s| - 2 :: IsLid(s[..k]) && s[k..k + 2] == "::" && IsMajorMinor(s[k + 2..])
  }

  /** asciiVidPattern [1-9][0-9]*\.[0-9]+(\.[0-9]+)?(\.[0-9]+)? */
  predicate IsVid(s: string) {
    IsMajorMinor(s)
    || (exists k | 0 < k < |s| :: IsMajorMinor(s[..k]) && s[k] == '.' && IsDigitRun(s[k + 1..]))
    || (exists k, m | 0 < k < m < |s| ::
          IsMajorMinor(s[..k]) && s[k] == '.' && IsDigitRun(s[k + 1..m]) && s[m] == '.' && IsDigitRun(s[m + 1..]))
  }

  /** asciiBibCodePattern \d{4}[A-Za-z\d\.\&]{5}[A-Za-z\d\.]{9}[A-Z] */
  predicate IsBibcode(s: string) {
    |s| == 19
    && (forall i | 0 <= i < 4 :: IsDigit(s[i]))
    && (forall i | 4 <= i < 9 :: IsAlnum(s[i]) || s[i] == '.' || s[i] == '&')
    && (forall i | 9 <= i < 18 :: IsAlnum(s[i]) || s[i] == '.')
    && IsUpper(s[18])
  }

  // ---------------------------------------------------------------------
  // Names

  /** asciiDirPathNamePattern [A-Za-z0-9][A-Za-z0-9_-]*[A-Za-z0-9] (at least two characters) */
  predicate IsDirName(s: string) {
    |s| >= 2 && IsAlnum(s[0]) && IsAlnum(s[|s| - 1])
    && forall i | 0 < i < |s| - 1 :: IsAlnum(s[i]) || s[i] == '_' || s[i] == '-'
  }

  /** [A-Za-z0-9-_\.] */
  predicate IsFileNameChar(c: char) { IsAlnum(c) || c == '-' || c == '_' || c == '.' }

  /**
   * asciiFileNamePattern [A-Za-z0-9]*[A-Za-z0-9-_\.]*[A-Za-z0-9]\.[A-Za-z0-9]+ :
   * the first two parts together are [A-Za-z0-9-_\.]*, and the last '.' starts
   * the extension.
   */
  predicate IsFileName(s: string) {
    exists k | 1 <= k < |s| - 1 ::
      s[k] == '.' && IsAlnum(s[k - 1]) && AllFileNameChars(s[..k - 1]) && AllAlnum(s[k + 1..])
  }

  predicate AllFileNameChars(s: string) { forall i | 0 <= i < |s| :: IsFileNameChar(s[i]) }

  /**
   * dirPattern /?([A-Za-z0-9][A-Za-z0-9_-]*[A-Za-z0-9]/?)* : after an optional
   * leading '/', names separated by single slashes, with an optional trailing
   * slash. (Two names written back to back form one name, so the optional
   * slashes between repetitions only ever separate names.)
   */
  predicate IsDirSpec(d: string) {
    var r := if |d| > 0 && d[0] == '/' then d[1..] else d;
    if r == [] then true
    else
      var names := SplitAll(if r[|r| - 1] == '/' then r[..|r| - 1] else r, '/');
      forall i | 0 <= i < |names| :: IsDirName(names[i])
  }

  /** The loop over value.split("/"): each piece must match the pattern and be at most 255 long. */
  function CheckDirectories(dirs: seq<string>): (r: TypeVerdict)
    ensures r == TypeOk <==> forall i | 0 <= i < |dirs| :: IsDirName(dirs[i]) && |dirs[i]| <= MAX_NAME_LENGTH
    ensures r.TypeRejected? ==> r.reason == PatternMismatch || r.reason == TooLong
  {
    if dirs == [] then TypeOk
    else if !IsDirName(dirs[0]) then TypeRejected(PatternMismatch)
    else if |dirs[0]| > MAX_NAME_LENGTH then TypeRejected(TooLong)
    else CheckDirectories(dirs[1..])
  }

  /** The ASCII_FILE_SPECIFICATION_NAME branch, on the directory and name FilenameUtils returns. */
  function CheckFileSpecification(dir: string, name: string): TypeVerdict {
    if dir != [] && |dir| > MAX_NAME_LENGTH then TypeRejected(TooLong)
    else if dir != [] && !IsDirSpec(dir) then TypeRejected(PatternMismatch)
    else if name == [] then TypeRejected(NoFileName)
    else if !IsFileName(name) then TypeRejected(PatternMismatch)
    else if |name| > MAX_NAME_LENGTH then TypeRejected(TooLong)
    else TypeOk
  }

  /** Rejection unless p holds. */
  function Require(p: bool, reason: Rejection): TypeVerdict {
    if p then TypeOk else TypeRejected(reason)
  }

  /** checkType(value, type): TypeOk when the source returns, TypeRejected when it throws. */
  function CheckType(value: string, t: FieldType, oracles: TypeOracles): (r: TypeVerdict)
    ensures IsInfNan(value) ==> r == TypeRejected(NotAllowedToken)
    ensures t == Unchecked ==> (r == TypeOk <==> !IsInfNan(value))
  {
    if IsInfNan(value) then TypeRejected(NotAllowedToken)
    else match t
      case AsciiInteger =>
        if !IsSignedIntegerLexeme(value) then TypeRejected(PatternMismatch)
        else Require(ParseLong(value).Some?, ConversionFailure)
      case AsciiNonNegativeInteger =>
        if !IsNonNegativeIntegerLexeme(value) then TypeRejected(PatternMismatch)
        else Require(ParseUnsignedLong(value).Some?, ConversionFailure)
      // Every string of the asciiReal grammar is accepted by Double.parseDouble.
      case AsciiReal => Require(IsRealLexeme(value), PatternMismatch)
      // A string that matches the base-N pattern always converts with new BigInteger(value, N).
      case AsciiNumericBase2 =>
        Require(1 <= |value| <= 255 && forall i | 0 <= i < |value| :: IsBinaryDigit(value[i]), PatternMismatch)
      case AsciiNumericBase8 =>
        Require(1 <= |value| <= 255 && forall i | 0 <= i < |value| :: IsOctalDigit(value[i]), PatternMismatch)
      case AsciiNumericBase16 =>
        Require(1 <= |value| <= 255 && forall i | 0 <= i < |value| :: IsHexDigit(value[i]), PatternMismatch)
      case AsciiMd5Checksum =>
        Require(|value| == 32 && forall i | 0 <= i < |value| :: IsHexDigit(value[i]), PatternMismatch)
      case AsciiAnyUri => Require(oracles.isValidUri(value), ExternalRejection)
      case AsciiDoi => Require(IsDoi(value), PatternMismatch)
      case AsciiLid => Require(IsLid(value), PatternMismatch)
      case AsciiLidVid => Require(IsLidVid(value), PatternMismatch)
      case AsciiLidVidLid => Require(IsLidVid(value) || IsLid(value), PatternMismatch)
      case AsciiVid => Require(IsVid(value), PatternMismatch)
      case AsciiString => Require(forall i | 0 <= i < |value| :: value[i] as int <= 127, NonAsciiCharacter)
      case Utf8String =>
        Require(!exists i | 0 <= i < |value| - 1 :: value[i] == '\\' && value[i + 1] == 's', EscapedWhitespace)
      case AsciiDirectoryPathName => CheckDirectories(JavaSplit(value, '/'))
      case AsciiFileName =>
        if !IsFileName(value) then TypeRejected(PatternMismatch) else Require(|value| <= MAX_NAME_LENGTH, TooLong)
      case AsciiFileSpecificationName => CheckFileSpecification(oracles.fullPath(value), oracles.fileName(value))
      case AsciiBibcode => Require(IsBibcode(value), PatternMismatch)
      case Unchecked => TypeOk
      case AsciiDateDoy => Require(oracles.isValidDateTime(t, value), ExternalRejection)
      case AsciiDateTimeDoy => Require(oracles.isValidDateTime(t, value), ExternalRejection)
      case AsciiDateTimeDoyUtc => Require(oracles.isValidDateTime(t, value), ExternalRejection)
      case AsciiDateTimeYmd => Require(oracles.isValidDateTime(t, value), ExternalRejection)
      case AsciiDateTimeYmdUtc => Require(oracles.isValidDateTime(t, value), ExternalRejection)
      case AsciiDateYmd => Require(oracles.isValidDateTime(t, value), ExternalRejection)
      case AsciiTime => Require(oracles.isValidDateTime(t, value), ExternalRejection)
  }

  // ---------------------------------------------------------------------
  // What checkType accepts

  /** None of the refused tokens is a number, a digit string or a LID. */
  lemma InfNanTokensAreNotNumbers(value: string)
    requires IsInfNan(value)
    ensures 3 <= |value| <= 4 && value[0] != 'u'
    ensures value[|value| - 1] == 'F' || value[|value| - 1] == 'N'
    ensures !IsHexDigit(value[|value| - 3]) || !IsHexDigit(value[|value| - 1])
    ensures forall i | 0 <= i < |value| :: value[i] != '.' && value[i] != '/'
  {
    assert value == "INF" || value == "-INF" || value == "+INF" || value == "NAN" || value == "-NAN" || value == "+NAN";
  }

  /** No refused token is a sign followed by digits. */
  lemma InfNanTail(value: string)
    ensures IsInfNan(value) ==> !IsDigitRun(value[1..])
  {
    if IsInfNan(value) {
      InfNanTokensAreNotNumbers(value);
      assert value[1..][|value| - 2] == value[|value| - 1];
    }
  }

  /** A string whose last character is a letter is neither a digit run nor an integer lexeme. */
  lemma EndsWithLetterNotNumeric(value: string)
    requires |value| >= 2 && !IsDigit(value[|value| - 1])
    ensures !IsDigitRun(value) && !IsSignedIntegerLexeme(value) && !IsNonNegativeIntegerLexeme(value)
  {
    assert value[1..][|value| - 2] == value[|value| - 1];
  }

  /** ASCII_Integer accepts exactly the [+-]?\d+ strings whose value fits a signed 64-bit integer. */
  lemma IntegerAcceptance(value: string, o: TypeOracles)
    ensures CheckType(value, AsciiInteger, o) == TypeOk
        <==> IsSignedIntegerLexeme(value) && MIN_LONG <= SignedValue(value) <= MAX_LONG
    ensures !IsSignedIntegerLexeme(value) && !IsInfNan(value)
        ==> CheckType(value, AsciiInteger, o) == TypeRejected(PatternMismatch)
  {
    if IsInfNan(value) {
      InfNanTokensAreNotNumbers(value);
      EndsWithLetterNotNumeric(value);
    }
  }

  /** The rendering of any number in the signed 64-bit range is an accepted ASCII_Integer. */
  lemma {:induction false} IntegerRenderingAccepted(n: nat, o: TypeOracles)
    requires n <= MAX_LONG
    ensures CheckType(Decimal(n), AsciiInteger, o) == TypeOk
    ensures CheckType("-" + Decimal(n), AsciiInteger, o) == TypeOk
  {
    var d := Decimal(n);
    DecimalRoundTrip(n);
    assert ("-" + d)[1..] == d;
    IntegerAcceptance(d, o);
    IntegerAcceptance("-" + d, o);
  }

  /** A number beyond the signed 64-bit range matches the pattern but fails the conversion. */
  lemma IntegerOverflowRejected(n: nat, o: TypeOracles)
    requires n > MAX_LONG
    ensures CheckType(Decimal(n), AsciiInteger, o) == TypeRejected(ConversionFailure)
  {
    var d := Decimal(n);
    DecimalRoundTrip(n);
    if IsInfNan(d) {
      InfNanTokensAreNotNumbers(d);
      EndsWithLetterNotNumeric(d);
    }
  }

  /**
   * ASCII_NonNegative_Integer accepts exactly the digit strings up to 2^64 - 1:
   * the pattern admits a leading '+', but the unsigned conversion refuses it.
   */
  lemma NonNegativeIntegerAcceptance(value: string, o: TypeOracles)
    ensures CheckType(value, AsciiNonNegativeInteger, o) == TypeOk
        <==> IsDigitRun(value) && DecimalValue(value) <= MAX_UNSIGNED_LONG
  {
    if IsInfNan(value) {
      InfNanTokensAreNotNumbers(value);
      EndsWithLetterNotNumeric(value);
    } else if IsDigitRun(value) {
      assert value[0] != '+';
      assert IsNonNegativeIntegerLexeme(value);
    }
  }

  /** A leading '+' passes the pattern but not the unsigned conversion. */
  lemma NonNegativePlusRejected(value: string, o: TypeOracles)
    requires |value| > 0 && value[0] == '+' && IsDigitRun(value[1..])
    ensures CheckType(value, AsciiNonNegativeInteger, o) == TypeRejected(ConversionFailure)
  {
    assert IsNonNegativeIntegerLexeme(value);
    assert !IsDigitRun(value) by { assert !IsDigit(value[0]); }
    InfNanTail(value);
  }

  /** The rendering of every unsigned 64-bit number is accepted; with a '+' in front it is not. */
  lemma {:induction false} NonNegativeRenderingAccepted(n: nat, o: TypeOracles)
    requires n <= MAX_UNSIGNED_LONG
    ensures CheckType(Decimal(n), AsciiNonNegativeInteger, o) == TypeOk
    ensures CheckType("+" + Decimal(n), AsciiNonNegativeInteger, o) == TypeRejected(ConversionFailure)
  {
    var d := Decimal(n);
    DecimalRoundTrip(n);
    assert ("+" + d)[1..] == d;
    NonNegativeIntegerAcceptance(d, o);
    NonNegativePlusRejected("+" + d, o);
  }

  /** The base-N and MD5 types accept exactly the strings of their alphabet and length. */
  lemma DigitStringAcceptance(value: string, o: TypeOracles)
    ensures CheckType(value, AsciiNumericBase2, o) == TypeOk
        <==> 1 <= |value| <= 255 && forall i | 0 <= i < |value| :: IsBinaryDigit(value[i])
    ensures CheckType(value, AsciiNumericBase8, o) == TypeOk
        <==> 1 <= |value| <= 255 && forall i | 0 <= i < |value| :: IsOctalDigit(value[i])
    ensures CheckType(value, AsciiNumericBase16, o) == TypeOk
        <==> 1 <= |value| <= 255 && forall i | 0 <= i < |value| :: IsHexDigit(value[i])
    ensures CheckType(value, AsciiMd5Checksum, o) == TypeOk
        <==> |value| == 32 && forall i | 0 <= i < |value| :: IsHexDigit(value[i])
  {
    if IsInfNan(value) {
      InfNanTokensAreNotNumbers(value);
    }
  }

  /** A 7-bit ASCII string is accepted unless it is one of the refused tokens, which are ASCII too. */
  lemma AsciiStringAcceptance(value: string, o: TypeOracles)
    ensures CheckType(value, AsciiString, o) == TypeOk
        <==> !IsInfNan(value) && forall i | 0 <= i < |value| :: value[i] as int <= 127
    ensures CheckType("INF", AsciiString, o) == TypeRejected(NotAllowedToken)
  {
  }

  /** ASCII_LIDVID_LID takes a LIDVID or a bare LID; ASCII_LIDVID only the former. */
  lemma LidVidLidAcceptance(value: string, o: TypeOracles)
    ensures CheckType(value, AsciiLidVidLid, o) == TypeOk <==> IsLidVid(value) || IsLid(value)
    ensures CheckType(value, AsciiLidVid, o) == TypeOk ==> CheckType(value, AsciiLidVidLid, o) == TypeOk
    ensures CheckType(value, AsciiLid, o) == TypeOk ==> CheckType(value, AsciiLidVidLid, o) == TypeOk
  {
    if IsInfNan(value) {
      InfNanTokensAreNotNumbers(value);
      if IsLidVid(value) {
        LidVidEndsInDigit(value);
      }
    }
  }

  /** ASCII_LID accepts exactly the LIDs. */
  lemma LidAcceptance(value: string, o: TypeOracles)
    ensures CheckType(value, AsciiLid, o) == TypeOk <==> IsLid(value)
  {
  }

  /** ASCII_LIDVID accepts exactly the LIDVIDs. */
  lemma LidVidAcceptance(value: string, o: TypeOracles)
    ensures CheckType(value, AsciiLidVid, o) == TypeOk <==> IsLidVid(value)
  {
    if IsInfNan(value) {
      InfNanTokensAreNotNumbers(value);
      if IsLidVid(value) {
        LidVidEndsInDigit(value);
      }
    }
  }

  /** A LID, "::" and a version form a LIDVID. */
  lemma LidVidOf(lid: string, version: string)
    requires IsLid(lid) && IsMajorMinor(version)
    ensures IsLidVid(lid + "::" + version)
  {
    var s := lid + "::" + version;
    assert s[..|lid|] == lid && s[|lid|..|lid| + 2] == "::" && s[|lid| + 2..] == version;
  }

  /** "urn:nasa:pds:bundle" is a LID. */
  lemma BundleLid()
    ensures IsLid("urn:nasa:pds:bundle")
  {
    var lid := "urn:nasa:pds:bundle";
    assert lid[..4] == "urn:";
    assert lid[4..8] == "nasa" && AllLower(lid[4..8]);
    assert lid[9..12] == "pds" && AllLower(lid[9..12]);
    assert lid[13..] == "bundle" && IsLidTail(lid[13..]);
    assert lid[8] == ':' && lid[12] == ':';
  }

  /** A LIDVID always ends in a digit, so a LID ending in a letter is not one. */
  lemma LidVidEndsInDigit(s: string)
    requires IsLidVid(s)
    ensures |s| > 0 && IsDigit(s[|s| - 1])
  {
    var k :| 0 <= k <= |s| - 2 && IsLid(s[..k]) && s[k..k + 2] == "::" && IsMajorMinor(s[k + 2..]);
    var v := s[k + 2..];
    assert v[|v| - 1] == s[|s| - 1];
  }

  /** A LID is not a LIDVID: "urn:nasa:pds:bundle" is refused as ASCII_LIDVID. */
  lemma LidIsNotLidVid()
    ensures !IsLidVid("urn:nasa:pds:bundle")
  {
    if IsLidVid("urn:nasa:pds:bundle") {
      LidVidEndsInDigit("urn:nasa:pds:bundle");
    }
  }

  /** ASCII_DOI accepts exactly the values of the DOI pattern. */
  lemma DoiAcceptance(value: string, o: TypeOracles)
    ensures CheckType(value, AsciiDoi, o) == TypeOk <==> IsDoi(value)
  {
    if IsInfNan(value) {
      InfNanTokensAreNotNumbers(value);
    }
  }

  /** The DOI pattern needs the "10." prefix and a '/' with something on both sides. */
  lemma DoiExamples()
    ensures IsDoi("10.1000/182")
    ensures !IsDoi("1000/182")
    ensures !IsDoi("10.1000/")
  {
    assert "10.1000/182"[..3] == "10." && "10.1000/182"[7] == '/';
    assert "1000/182"[..3] == "100";
  }

  /** "/" and "//" split into nothing but empty pieces, which split("/") drops: both pass. */
  lemma DirectoryPathOnlySlashes()
    ensures JavaSplit("/", '/') == [] && JavaSplit("//", '/') == []
  {
    assert Contains("/", '/') by { assert "/"[0] == '/'; }
    assert Contains("//", '/') by { assert "//"[0] == '/'; }
    SplitAllAtDelimiter("", '/', "");
    assert "" + ['/'] + "" == "/";
    SplitAllAtDelimiter("", '/', "/");
    assert "" + ['/'] + "/" == "//";
  }

  /** A name, with or without a trailing slash, splits into that one name. */
  lemma DirectoryNameSplit(n: string)
    requires n != [] && !Contains(n, '/')
    ensures JavaSplit(n, '/') == [n] && JavaSplit(n + "/", '/') == [n]
  {
    var v := n + "/";
    assert v == n + ['/'] + "";
    SplitAllAtDelimiter(n, '/', "");
    assert Contains(v, '/') by { assert v[|n|] == '/'; }
    assert SplitAll(v, '/') == [n, ""];
    assert DropTrailingEmpty([n, ""]) == DropTrailingEmpty([n]) by { assert [n, ""][..1] == [n]; }
  }

  /** One directory name, with or without a trailing slash, passes when it is at most 255 long. */
  lemma DirectoryNameAccepted(n: string, o: TypeOracles)
    requires IsDirName(n) && !Contains(n, '/') && |n| <= MAX_NAME_LENGTH && !IsInfNan(n)
    ensures CheckType(n, AsciiDirectoryPathName, o) == TypeOk
    ensures CheckType(n + "/", AsciiDirectoryPathName, o) == TypeOk
  {
    DirectoryNameSplit(n);
    var v := n + "/";
    assert v[|n|] == '/';
    if IsInfNan(v) { InfNanTokensAreNotNumbers(v); }
    DirectoryPathAcceptance(n, o);
    DirectoryPathAcceptance(v, o);
  }

  /** A leading slash before a name leaves an empty first piece, which is not a name. */
  lemma DirectoryLeadingSlashSplit(n: string)
    requires n != [] && !Contains(n, '/')
    ensures JavaSplit("/" + n, '/') == ["", n] && !IsDirName("")
  {
    var v := "/" + n;
    assert v == "" + ['/'] + n;
    SplitAllAtDelimiter("", '/', n);
    SplitAllNoDelimiter(n, '/');
    assert Contains(v, '/') by { assert v[0] == '/'; }
  }

  /** A one-character directory name does not match [A-Za-z0-9][A-Za-z0-9_-]*[A-Za-z0-9]. */
  lemma DirectoryPathShortName()
    ensures JavaSplit("a", '/') == ["a"] && !IsDirName("a")
  {
    assert !Contains("a", '/');
  }

  /** ASCII_File_Name accepts exactly the values of the file-name pattern up to 255 characters. */
  lemma FileNameAcceptance(value: string, o: TypeOracles)
    ensures CheckType(value, AsciiFileName, o) == TypeOk <==> IsFileName(value) && |value| <= MAX_NAME_LENGTH
    ensures !IsFileName(value) && !IsInfNan(value) ==> CheckType(value, AsciiFileName, o) == TypeRejected(PatternMismatch)
  {
    if IsInfNan(value) {
      InfNanTokensAreNotNumbers(value);
    }
  }

  /** A one-character base name is accepted (issue 299). */
  lemma FileNameExamples()
    ensures IsFileName("a.txt") && IsFileName("data.v1.tab")
  {
    assert "a.txt"[1] == '.' && "a.txt"[..0] == [] && "a.txt"[2..] == "txt";
    var n := "data.v1.tab";
    assert n[7] == '.' && n[6] == '1' && n[..6] == "data.v" && n[8..] == "tab";
  }

  /** A file name needs an alphanumeric character right before its extension. */
  lemma FileNameCounterExamples()
    ensures !IsFileName(".txt") && !IsFileName("a_.txt")
  {
    var n := "a_.txt";
    assert n[1] == '_' && n[2] == '.';
    assert forall k | 1 <= k < |n| - 1 && k != 2 :: n[k] != '.';
  }

  /** Every directory piece must be a name of at most 255 characters. */
  lemma DirectoryPathAcceptance(value: string, o: TypeOracles)
    requires !IsInfNan(value)
    ensures CheckType(value, AsciiDirectoryPathName, o) == TypeOk
        <==> forall i | 0 <= i < |JavaSplit(value, '/')| ::
               IsDirName(JavaSplit(value, '/')[i]) && |JavaSplit(value, '/')[i]| <= MAX_NAME_LENGTH
  {
  }
}
