# PDS validate: table field values and label validation, in Dafny

This project models two classes of the NASA PDS `validate` tool and proves properties of them.

- **FieldValueValidator** checks every field of a table record against its field description. It checks:
  - the declared data type (checkType);
  - the declared field format (checkFormat);
  - the declared minimum and maximum (checkMinMax);
  - the layout: maximum length, overlaps with the next field, and bit-field overlaps.

  Problems go to a ProblemListener. When some field hits a fatal condition, the record ends with FieldContentFatalException.
- **LabelValidator** keeps configuration and schematron caches from one label to the next. parseAndValidate does three things:
  - it replays the parsed DOM tree to the schema validator as SAX events, with a DOMLocator cursor;
  - it chooses the schematrons for the label and reports each failed assert of their SVRL reports as a problem;
  - it counts the labels it processed.

The modules follow the source:

- `problems.dfy`: the problem kinds and severities, and the sink that problems are appended to.
- `java_text.dfy`: the java.lang.String, Character and regex operations the code relies on (`trim`, `length()` in UTF-16 code units, `\s`, `split`, `replaceAll("\\s+", " ")`, `equalsIgnoreCase` with Java's case mappings onto ASCII letters, `Character.digit` in radix 10 over the decimal digits of every script).
- `field_types.dfy`: checkType as a closed dispatch over the field type, with each pattern written out as a predicate.
- `field_format.dfy`: checkFormat as a specification. It parses the format string and lists the problems it emits.
- `field_range.dfy`: checkMinMax as a specification, including its leading-zero correction.
- `record_validation.dfy`: the loop of validate as a specification. Each loop iteration is one `FieldStep`, and the record is the fold `Loop` over those steps.
- `field_value_validator.dfy`: the class `FieldValueValidator`. Its methods append to the listener, check by check, and each method is proved to append exactly what its specification function lists.
- `dom_replay.dfy`: walkNode and walkChildren, the `DOMLocator` class and the receiving content handler. It proves that the replay is well nested, keeps all text, and carries the positions the locator reports.
- `schematron.dfy`: processFailedAssert, getSchematrons and loadLabelSchematrons as functions. Each comes with lemmas about what it reports.
- `label_validator.dfy`: the class `LabelValidator`, with its fields, its setters, the choice of cachedSchematron and parseAndValidate.

Library calls of the source become parameters:

- XML parsing, XPath, URL construction, catalog resolution, schematron compilation and execution, TargetExaminer, DateTimeValidator, java.net.URI, FilenameUtils, Double parsing and NumberUtils become datatypes of functions, for example `TypeOracles`, `NumberOracles`, `UrlOracles`, `LoadOracles` and `Environment`.
- An exception the source catches or propagates becomes a `threw` flag, an `Option` result or an `Outcome`.
- Java's `int` wrap-around is written out where the source depends on it: `offset + length` in the overlap checks is computed by `Wrap32`.

## Model

| member | source | states |
|---|---|---|
| JavaText.Trim | src/main/java/gov/nasa/pds/tools/validate/content/table/FieldValueValidator.java:300-307 | trim() removes exactly the leading and trailing chars up to U+0020: the result is empty iff every char is trimmable, else it is the slice between the first and last kept chars |
| JavaText.TrimIdempotent | src/main/java/gov/nasa/pds/tools/validate/content/table/FieldValueValidator.java:342-396 | trimming twice is trimming once, so checkMinMax trimming an already trimmed value changes nothing |
| JavaText.Utf16Length | src/main/java/gov/nasa/pds/tools/validate/content/table/FieldValueValidator.java:216 | String.length(): between the char count and twice it, and equal to the char count exactly when no char is beyond U+FFFF |
| JavaText.Utf16LengthAppend | src/main/java/gov/nasa/pds/tools/validate/content/table/FieldValueValidator.java:824 | length() of a concatenation is the sum of the lengths |
| JavaText.SupplementaryCountsTwice | src/main/java/gov/nasa/pds/tools/validate/content/table/FieldValueValidator.java:809 | three U+1F600 chars have length() 6 |
| JavaText.SplitJoin | src/main/java/gov/nasa/pds/tools/validate/content/table/FieldValueValidator.java:677 | splitting on a delimiter and joining again gives the string back, and no piece holds the delimiter |
| JavaText.JavaSplit | src/main/java/gov/nasa/pds/tools/validate/content/table/FieldValueValidator.java:677 | split on a one-char delimiter gives the string itself when the delimiter is absent; otherwise the pieces with trailing empty ones dropped |
| JavaText.CollapseWhitespaceCollapses | src/main/java/gov/nasa/pds/tools/label/LabelValidator.java:688 | replaceAll("\\s+", " ") leaves no \s but single spaces, never two in a row, and keeps a non-space first char |
| JavaText.CollapseWhitespaceIdempotent | src/main/java/gov/nasa/pds/tools/label/LabelValidator.java:688 | collapsing an already collapsed string changes nothing |
| JavaText.LetterFoldClass | src/main/java/gov/nasa/pds/tools/label/LabelValidator.java:787-791 | a char equals a lower-case ASCII letter ignoring case exactly when it is the letter, its upper case, or a char Java folds onto it: U+0131 and U+0130 onto 'i', U+017F onto 's', U+212A onto 'k' |
| JavaText.NonLetterMatchesItself | src/main/java/gov/nasa/pds/tools/label/LabelValidator.java:688 | an ASCII char that is not a letter, such as '-' in "xml-model", equals only itself ignoring case |
| JavaText.AsciiCharacterDigit | src/main/java/gov/nasa/pds/tools/validate/content/table/FieldValueValidator.java:786-796 | on ASCII, Character.digit in radix 10 accepts exactly '0'-'9' and gives their values |
| JavaText.ArabicIndicCharacterDigit | src/main/java/gov/nasa/pds/tools/validate/content/table/FieldValueValidator.java:786-796 | Character.digit gives the Arabic-Indic digits U+0660-U+0669 the values 0-9 |
| FieldTypes.DecimalRoundTrip | src/main/java/gov/nasa/pds/tools/validate/content/table/FieldValueValidator.java:515-538 | reading back the decimal rendering of a number gives the number (used to state which renderings the integer types accept) |
| FieldTypes.DecimalValueBound | src/main/java/gov/nasa/pds/tools/validate/content/table/FieldValueValidator.java:515-538 | a digit string of length n denotes a number below 10^n |
| FieldTypes.ParseLong | src/main/java/gov/nasa/pds/tools/validate/content/table/FieldValueValidator.java:518 | Long.parseLong succeeds only on a signed digit string whose value lies in the signed 64-bit range |
| FieldTypes.ParseUnsignedLong | src/main/java/gov/nasa/pds/tools/validate/content/table/FieldValueValidator.java:530 | UnsignedLong.valueOf succeeds only on digits without a sign, up to 2^64 - 1 |
| FieldTypes.CheckType | src/main/java/gov/nasa/pds/tools/validate/content/table/FieldValueValidator.java:509-728 | an INF/NAN token is refused for every type; a type without a branch accepts exactly the values that are not such a token |
| FieldTypes.InfNanTokensAreNotNumbers | src/main/java/gov/nasa/pds/tools/validate/content/table/FieldValueValidator.java:56-57 | the six refused tokens are 3-4 chars long, end in F or N and hold no '.' or '/', so no numeric pattern admits them |
| FieldTypes.IntegerAcceptance | src/main/java/gov/nasa/pds/tools/validate/content/table/FieldValueValidator.java:515-525 | ASCII_Integer accepts exactly the [+-]?\d+ strings whose value fits a signed 64-bit integer; other strings fail the pattern |
| FieldTypes.IntegerRenderingAccepted | src/main/java/gov/nasa/pds/tools/validate/content/table/FieldValueValidator.java:515-525 | every number up to 2^63 - 1, and its negation, rendered in decimal is an accepted ASCII_Integer |
| FieldTypes.IntegerOverflowRejected | src/main/java/gov/nasa/pds/tools/validate/content/table/FieldValueValidator.java:515-525 | a number above 2^63 - 1 matches the pattern but fails the conversion |
| FieldTypes.NonNegativeIntegerAcceptance | src/main/java/gov/nasa/pds/tools/validate/content/table/FieldValueValidator.java:526-538 | ASCII_NonNegative_Integer accepts exactly the unsigned digit strings up to 2^64 - 1 |
| FieldTypes.NonNegativePlusRejected | src/main/java/gov/nasa/pds/tools/validate/content/table/FieldValueValidator.java:526-538 | a leading '+' passes the pattern [+]?\d+ but is refused by the unsigned conversion |
| FieldTypes.NonNegativeRenderingAccepted | src/main/java/gov/nasa/pds/tools/validate/content/table/FieldValueValidator.java:526-538 | every unsigned 64-bit number in decimal is accepted, and the same with '+' in front is refused |
| FieldTypes.DigitStringAcceptance | src/main/java/gov/nasa/pds/tools/validate/content/table/FieldValueValidator.java:550-602 | base 2, 8 and 16 accept exactly 1 to 255 digits of their alphabet; MD5 exactly 32 hex digits |
| FieldTypes.AsciiStringAcceptance | src/main/java/gov/nasa/pds/tools/validate/content/table/FieldValueValidator.java:640-650 | ASCII_String accepts exactly the 7-bit strings that are not a refused token, and "INF" is refused |
| FieldTypes.LidAcceptance | src/main/java/gov/nasa/pds/tools/validate/content/table/FieldValueValidator.java:615-619 | ASCII_LID accepts exactly the strings of the LID pattern |
| FieldTypes.LidVidAcceptance | src/main/java/gov/nasa/pds/tools/validate/content/table/FieldValueValidator.java:620-624 | ASCII_LIDVID accepts exactly the strings of the LIDVID pattern |
| FieldTypes.LidVidLidAcceptance | src/main/java/gov/nasa/pds/tools/validate/content/table/FieldValueValidator.java:625-634 | ASCII_LIDVID_LID accepts exactly a LIDVID or a LID, so it accepts everything ASCII_LID or ASCII_LIDVID accepts |
| FieldTypes.LidVidOf | src/main/java/gov/nasa/pds/tools/validate/content/table/FieldValueValidator.java:111-114 | a LID, "::" and a major.minor version form a LIDVID |
| FieldTypes.BundleLid | src/main/java/gov/nasa/pds/tools/validate/content/table/FieldValueValidator.java:111-112 | "urn:nasa:pds:bundle" is a LID |
| FieldTypes.LidVidEndsInDigit | src/main/java/gov/nasa/pds/tools/validate/content/table/FieldValueValidator.java:113-114 | every LIDVID ends in a digit |
| FieldTypes.LidIsNotLidVid | src/main/java/gov/nasa/pds/tools/validate/content/table/FieldValueValidator.java:113-114 | the LID "urn:nasa:pds:bundle" is not a LIDVID |
| FieldTypes.DoiAcceptance | src/main/java/gov/nasa/pds/tools/validate/content/table/FieldValueValidator.java:610-614 | ASCII_DOI accepts exactly the strings of the DOI pattern |
| FieldTypes.DoiExamples | src/main/java/gov/nasa/pds/tools/validate/content/table/FieldValueValidator.java:109-110 | "10.1000/182" is a DOI; "1000/182" and "10.1000/" are not |
| FieldTypes.DirectoryPathAcceptance | src/main/java/gov/nasa/pds/tools/validate/content/table/FieldValueValidator.java:675-686 | a directory path is accepted exactly when every non-trailing piece of split("/") is a directory name of at most 255 chars |
| FieldTypes.DirectoryPathOnlySlashes | src/main/java/gov/nasa/pds/tools/validate/content/table/FieldValueValidator.java:677 | "/" and "//" split into no pieces, so they pass |
| FieldTypes.DirectoryNameSplit | src/main/java/gov/nasa/pds/tools/validate/content/table/FieldValueValidator.java:677 | a name without '/', with or without a trailing slash, splits into that one name |
| FieldTypes.DirectoryNameAccepted | src/main/java/gov/nasa/pds/tools/validate/content/table/FieldValueValidator.java:675-686 | one directory name of at most 255 chars passes, with or without a trailing slash |
| FieldTypes.DirectoryLeadingSlashSplit | src/main/java/gov/nasa/pds/tools/validate/content/table/FieldValueValidator.java:677-682 | a leading slash leaves an empty first piece, and the empty piece is not a directory name |
| FieldTypes.DirectoryPathShortName | src/main/java/gov/nasa/pds/tools/validate/content/table/FieldValueValidator.java:119-121 | a one-char directory name does not match the directory pattern |
| FieldTypes.FileNameAcceptance | src/main/java/gov/nasa/pds/tools/validate/content/table/FieldValueValidator.java:687-695 | ASCII_File_Name accepts exactly the strings of the file-name pattern with at most 255 chars; a value outside the pattern is a pattern mismatch |
| FieldTypes.FileNameExamples | src/main/java/gov/nasa/pds/tools/validate/content/table/FieldValueValidator.java:124-127 | "a.txt" (a one-char base name) and "data.v1.tab" are file names |
| FieldTypes.FileNameCounterExamples | src/main/java/gov/nasa/pds/tools/validate/content/table/FieldValueValidator.java:124-127 | ".txt" and "a_.txt" are not file names |
| FieldFormat.ParseRender | src/main/java/gov/nasa/pds/tools/validate/content/table/FieldValueValidator.java:87-88 | parsing a rendered well-formed format gives back its flag, width, precision and specifier |
| FieldFormat.RenderParse | src/main/java/gov/nasa/pds/tools/validate/content/table/FieldValueValidator.java:87-88 | a format that matches formatPattern is exactly the rendering of its groups |
| FieldFormat.NumbersParseRender | src/main/java/gov/nasa/pds/tools/validate/content/table/FieldValueValidator.java:87-88 | the width.precision part parses back to its digit groups |
| FieldFormat.NumbersRenderParse | src/main/java/gov/nasa/pds/tools/validate/content/table/FieldValueValidator.java:87-88 | a width.precision part that parses is the rendering of its groups |
| FieldFormat.BodyParseRender | src/main/java/gov/nasa/pds/tools/validate/content/table/FieldValueValidator.java:87-88 | the part after '%' of a well-formed format parses back to the format |
| FieldFormat.BodyRenderParse | src/main/java/gov/nasa/pds/tools/validate/content/table/FieldValueValidator.java:87-88 | the part after '%' that parses is the rendering of what it parsed to |
| FieldFormat.ParseFormatWellFormed | src/main/java/gov/nasa/pds/tools/validate/content/table/FieldValueValidator.java:740-748 | the groups of a matched format are ones formatPattern admits |
| FieldFormat.ParseInt | src/main/java/gov/nasa/pds/tools/validate/content/table/FieldValueValidator.java:744-746 | Integer.parseInt of a digit group succeeds iff its value is at most 2^31 - 1, and then gives that value |
| FieldFormat.NoTrailingWhitespace | src/main/java/gov/nasa/pds/tools/validate/content/table/FieldValueValidator.java:91-92 | a value whose last char is not \s never matches .*\s+ |
| FieldFormat.NoLeadingWhitespace | src/main/java/gov/nasa/pds/tools/validate/content/table/FieldValueValidator.java:89-90 | a value whose first char is not \s never matches \s+.* |
| FieldFormat.AssembleKinds | src/main/java/gov/nasa/pds/tools/validate/content/table/FieldValueValidator.java:749-846 | each problem kind appears exactly when its sub-check failed; FORMAT_MATCH appears exactly when neither justification, width nor precision failed |
| FieldFormat.AssembleFields | src/main/java/gov/nasa/pds/tools/validate/content/table/FieldValueValidator.java:749-846 | every problem is at the given field, and only FORMAT_MATCH is Debug |
| FieldFormat.AssembleMatchOnce | src/main/java/gov/nasa/pds/tools/validate/content/table/FieldValueValidator.java:839-846 | FORMAT_MATCH is emitted at most once |
| FieldFormat.FormatProblemKinds | src/main/java/gov/nasa/pds/tools/validate/content/table/FieldValueValidator.java:738-848 | checkFormat emits nothing but its six problem kinds |
| FieldFormat.UnparsedFormatEmitsNothing | src/main/java/gov/nasa/pds/tools/validate/content/table/FieldValueValidator.java:743 | a format that does not match formatPattern is silently ignored |
| FieldFormat.FormatThrowsOnOverflow | src/main/java/gov/nasa/pds/tools/validate/content/table/FieldValueValidator.java:744-746 | checkFormat throws exactly when the width or precision does not fit an int, and then has emitted nothing |
| FieldFormat.FormatProblemsAtField | src/main/java/gov/nasa/pds/tools/validate/content/table/FieldValueValidator.java:738-848 | every problem is at the field, only FORMAT_MATCH is Debug, and it comes at most once |
| FieldFormat.FormatChecks | src/main/java/gov/nasa/pds/tools/validate/content/table/FieldValueValidator.java:749-846 | on a parsed format, not/right/left-justified, specifier, too-long and precision problems appear exactly under their conditions on the value and its trim (lengths in UTF-16 code units, as String.length() counts them; for "d", "o" and "x" the BigInteger lexeme: a sign and decimal digits of any script), and FORMAT_MATCH exactly when none of the four suppressing ones does |
| FieldFormat.BigIntegerOnAscii | src/main/java/gov/nasa/pds/tools/validate/content/table/FieldValueValidator.java:786-796 | on ASCII text new BigInteger accepts exactly [+-]?[0-9]+, and signum is -1 exactly for a '-' before a nonzero number |
| FieldFormat.AsciiUnicodeDigits | src/main/java/gov/nasa/pds/tools/validate/content/table/FieldValueValidator.java:786-796 | on ASCII text every char is a digit of some script iff every char is '0'-'9' |
| FieldFormat.NonzeroDigitIffPositive | src/main/java/gov/nasa/pds/tools/validate/content/table/FieldValueValidator.java:789-796 | a digit string denotes a positive number iff one of its digits is nonzero, so "-0" and "-00" are not negative |
| FieldFormat.NonzeroDigitSplit | src/main/java/gov/nasa/pds/tools/validate/content/table/FieldValueValidator.java:789-796 | a nonzero digit lies in the prefix or is the last char |
| FieldFormat.ArabicIndicDigitsSuitIntegerSpecifiers | src/main/java/gov/nasa/pds/tools/validate/content/table/FieldValueValidator.java:786-796 | Arabic-Indic 12 suits "d"; minus Arabic-Indic zero suits "x" while minus Arabic-Indic one does not; a '-' after a digit suits nothing |
| FieldFormat.ArabicIndicValueMatchesFormat | src/main/java/gov/nasa/pds/tools/validate/content/table/FieldValueValidator.java:743-846 | the Arabic-Indic 12 against %5d gives FORMAT_MATCH and no specifier mismatch |
| FieldFormat.SupplementaryValueTooLongForWidth | src/main/java/gov/nasa/pds/tools/validate/content/table/FieldValueValidator.java:809-818 | three U+1F600 chars against %2s give TOO_LONG and no FORMAT_MATCH, since they are six UTF-16 units |
| FieldFormat.FractionLength | src/main/java/gov/nasa/pds/tools/validate/content/table/FieldValueValidator.java:822-826 | the precision a value shows is at most its length() |
| FieldFormat.PlusEightTwoParses | src/main/java/gov/nasa/pds/tools/validate/content/table/FieldValueValidator.java:87-88 | "%+8.2f" parses to flag '+', width 8, precision 2, specifier f |
| FieldFormat.PlusEightTwoEmission | src/main/java/gov/nasa/pds/tools/validate/content/table/FieldValueValidator.java:738-848 | with "%+8.2f" the emission is fixed by trailing whitespace, float syntax, a trimmed length() above 8 UTF-16 units and a precision other than 2 |
| FieldFormat.EightAndTwo | src/main/java/gov/nasa/pds/tools/validate/content/table/FieldValueValidator.java:744-746 | the width 8 and precision 2 parse as ints |
| FieldFormat.ThreeFourteen | src/main/java/gov/nasa/pds/tools/validate/content/table/FieldValueValidator.java:780-825 | 3.14 is a float with precision two |
| FieldFormat.ThreeFourteenZero | src/main/java/gov/nasa/pds/tools/validate/content/table/FieldValueValidator.java:780-825 | 3.140 is a float with precision three |
| FieldFormat.LeadingSpacesTrimmed | src/main/java/gov/nasa/pds/tools/validate/content/table/FieldValueValidator.java:751-760 | "  3.14" trims to "3.14" and has no trailing whitespace |
| FieldFormat.TrailingSpacesTrimmed | src/main/java/gov/nasa/pds/tools/validate/content/table/FieldValueValidator.java:751-760 | "3.14  " trims to "3.14" and has trailing whitespace |
| FieldFormat.RightJustifiedValueMatches | src/main/java/gov/nasa/pds/tools/validate/content/table/FieldValueValidator.java:738-848 | "  3.14" against "%+8.2f" gives exactly one FORMAT_MATCH |
| FieldFormat.PrecisionMismatch | src/main/java/gov/nasa/pds/tools/validate/content/table/FieldValueValidator.java:819-838 | "3.140" against "%+8.2f" gives exactly PRECISION_MISMATCH and no FORMAT_MATCH |
| FieldFormat.TrailingSpacesNotRightJustified | src/main/java/gov/nasa/pds/tools/validate/content/table/FieldValueValidator.java:751-760 | "3.14  " against "%+8.2f" gives exactly NOT_RIGHT_JUSTIFIED and no FORMAT_MATCH |
| FieldRange.Correct | src/main/java/gov/nasa/pds/tools/validate/content/table/FieldValueValidator.java:396-426 | the value is the trimmed one unless the type corrects a leading zero; when the correction fails the value stays trimmed |
| FieldRange.BoundsVerdict | src/main/java/gov/nasa/pds/tools/validate/content/table/FieldValueValidator.java:446-487 | once the value converts, each declared bound gives exactly one problem at the field, minimum first: an Error when strictly beyond it under the double comparison, Debug IN_RANGE otherwise |
| FieldRange.EqualToBoundIsInRange | src/main/java/gov/nasa/pds/tools/validate/content/table/FieldValueValidator.java:446-487 | a value equal to a declared bound is never out of range |
| FieldRange.LessIsIeeeOrder | src/main/java/gov/nasa/pds/tools/validate/content/table/FieldValueValidator.java:447-471 | the double comparison is the real order on finite values, a strict total order on non-NaN doubles with the infinities at its ends, and false whenever NaN is involved |
| FieldRange.NaNIsInRange | src/main/java/gov/nasa/pds/tools/validate/content/table/FieldValueValidator.java:446-487 | a value that converts to NaN gets IN_RANGE for every declared bound, whatever the bounds |
| FieldRange.NotANumberExactly | src/main/java/gov/nasa/pds/tools/validate/content/table/FieldValueValidator.java:431-498 | NOT_A_NUMBER is emitted exactly when the leading-zero parse failed and isCreatable refuses the value, and it is then the only problem |
| FieldRange.RangeProblemKinds | src/main/java/gov/nasa/pds/tools/validate/content/table/FieldValueValidator.java:394-498 | checkMinMax emits only OUT_OF_MIN_MAX_RANGE, IN_MIN_MAX_RANGE and NOT_A_NUMBER |
| FieldRange.UncorrectedNonNumberThrows | src/main/java/gov/nasa/pds/tools/validate/content/table/FieldValueValidator.java:431-445 | an uncorrected value that createDouble refuses makes checkMinMax throw with nothing emitted |
| FieldRange.CorrectedValueComparesParsedNumber | src/main/java/gov/nasa/pds/tools/validate/content/table/FieldValueValidator.java:411-445 | with a leading zero the comparison uses the number parseDouble read, so "000810" is compared as 810 |
| FieldRange.TrimmedArgumentSameEmission | src/main/java/gov/nasa/pds/tools/validate/content/table/FieldValueValidator.java:394-396 | trimming the argument before the call changes nothing |
| RecordValidation.Wrap32 | src/main/java/gov/nasa/pds/tools/validate/content/table/FieldValueValidator.java:235-279 | int arithmetic: the result equals the sum when it fits 32 bits and is congruent to it mod 2^32 |
| RecordValidation.SupplementaryValueExceedsMaxLength | src/main/java/gov/nasa/pds/tools/validate/content/table/FieldValueValidator.java:215-216 | three U+1F600 chars exceed a max_length of 4, since length() counts six units |
| RecordValidation.BlankValueOnlyBlank | src/main/java/gov/nasa/pds/tools/validate/content/table/FieldValueValidator.java:300-304 | an empty value, or a blank one in a fixed-width record, gives only BLANK_FIELD_VALUE |
| RecordValidation.DelimitedWhitespaceCheckedUntrimmed | src/main/java/gov/nasa/pds/tools/validate/content/table/FieldValueValidator.java:346-363 | a delimited all-whitespace value is type-checked untrimmed: BLANK when checkType accepts it, else DATA_TYPE_MISMATCH |
| RecordValidation.CheckedShape | src/main/java/gov/nasa/pds/tools/validate/content/table/FieldValueValidator.java:305-345 | the type problem comes first, and every later one is a format or min/max problem at the field |
| RecordValidation.FormatStepChecks | src/main/java/gov/nasa/pds/tools/validate/content/table/FieldValueValidator.java:325-338 | the format check reports only at the field and never a type or blank kind |
| RecordValidation.FormatReportsAtField | src/main/java/gov/nasa/pds/tools/validate/content/table/FieldValueValidator.java:330-336 | checkFormat reports only at the field and never a type or blank kind |
| RecordValidation.RangeStepChecks | src/main/java/gov/nasa/pds/tools/validate/content/table/FieldValueValidator.java:340-345 | checkMinMax reports only at the field and never a type or blank kind |
| RecordValidation.ContentShape | src/main/java/gov/nasa/pds/tools/validate/content/table/FieldValueValidator.java:305-345 | a value with content gives its type problem first, then format and min/max problems |
| RecordValidation.ContentAtField | src/main/java/gov/nasa/pds/tools/validate/content/table/FieldValueValidator.java:300-363 | every problem of the content checks is at the field |
| RecordValidation.ContentChecksCounts | src/main/java/gov/nasa/pds/tools/validate/content/table/FieldValueValidator.java:325-345 | format and min/max problems include no type and no blank kind |
| RecordValidation.TypeProblemVerdict | src/main/java/gov/nasa/pds/tools/validate/content/table/FieldValueValidator.java:306-322 | DATA_TYPE_MATCH (Debug) iff checkType accepts, else DATA_TYPE_MISMATCH (Error), at the field |
| RecordValidation.ContentTypeCheckedOnce | src/main/java/gov/nasa/pds/tools/validate/content/table/FieldValueValidator.java:305-345 | a value with content is type-checked exactly once, on its trimmed form, and is not reported blank |
| RecordValidation.TypeFirstCounts | src/main/java/gov/nasa/pds/tools/validate/content/table/FieldValueValidator.java:305-345 | a type problem followed by content checks gives exactly one type problem and no blank one |
| RecordValidation.BitFieldSkipsByteCheck | src/main/java/gov/nasa/pds/tools/validate/content/table/FieldValueValidator.java:249-271 | for a bit field the offsets are never compared; it is fatal iff the next start bit is above 1 and the stop bit reaches it; the overlap is at actualFieldNumber |
| RecordValidation.TwoOverlapsForOnePair | src/main/java/gov/nasa/pds/tools/validate/content/table/FieldValueValidator.java:230-290 | with format checking on, a byte field ending past the next field is reported twice as an overlap at its index, and the second is fatal |
| RecordValidation.OffsetComparisonSubsumed | src/main/java/gov/nasa/pds/tools/validate/content/table/FieldValueValidator.java:279 | without overflow and with a non-negative length, offset > next.offset implies offset + length > next.offset |
| RecordValidation.OffsetComparisonNeededOnWrap | src/main/java/gov/nasa/pds/tools/validate/content/table/FieldValueValidator.java:279 | when offset + length wraps, only offset > next.offset catches the overlap |
| RecordValidation.StepFatal | src/main/java/gov/nasa/pds/tools/validate/content/table/FieldValueValidator.java:170-374 | a field sets fatalError exactly on a failed read, a lone quote, a bit or byte overlap, or a thrown format or min/max check, whatever actualFieldNumber is |
| RecordValidation.StepFields | src/main/java/gov/nasa/pds/tools/validate/content/table/FieldValueValidator.java:170-374 | every problem of field i is at i + 1, except a bit overlap, which is at actualFieldNumber |
| RecordValidation.ReadStepFields | src/main/java/gov/nasa/pds/tools/validate/content/table/FieldValueValidator.java:184-374 | a read field's problems are at the field, except a bit overlap at actualFieldNumber |
| RecordValidation.StepAfn | src/main/java/gov/nasa/pds/tools/validate/content/table/FieldValueValidator.java:204-208 | actualFieldNumber rises by one exactly when the field was read and the next field starts at another offset |
| RecordValidation.OffsetChanges | src/main/java/gov/nasa/pds/tools/validate/content/table/FieldValueValidator.java:204-208 | the number of advancing fields is at most n, and below the number of fields |
| RecordValidation.LoopKeeps | src/main/java/gov/nasa/pds/tools/validate/content/table/FieldValueValidator.java:170-375 | a problem reported in an iteration is still there after every later one: the listener only grows |
| RecordValidation.LoopFatal | src/main/java/gov/nasa/pds/tools/validate/content/table/FieldValueValidator.java:163-375 | after n iterations the flag is set iff some iteration set it; none clears it or ends the loop |
| RecordValidation.LoopCounter | src/main/java/gov/nasa/pds/tools/validate/content/table/FieldValueValidator.java:169-208 | a counter from 1 that each iteration raises by inc(i) ends at 1 + the sum |
| RecordValidation.LoopFieldsBounded | src/main/java/gov/nasa/pds/tools/validate/content/table/FieldValueValidator.java:169-375 | a loop whose iterations report fields in range and add at most one keeps the counter in 1..n+1 and every field in range |
| RecordValidation.BodyFatal | src/main/java/gov/nasa/pds/tools/validate/content/table/FieldValueValidator.java:170-374 | whether an iteration is fatal does not depend on actualFieldNumber |
| RecordValidation.RecordFatal | src/main/java/gov/nasa/pds/tools/validate/content/table/FieldValueValidator.java:379-382 | FieldContentFatalException is thrown exactly when some field met a fatal condition |
| RecordValidation.OffsetChangesSum | src/main/java/gov/nasa/pds/tools/validate/content/table/FieldValueValidator.java:204-208 | the count of advancing fields is the sum of the per-field increments |
| RecordValidation.BodyAfn | src/main/java/gov/nasa/pds/tools/validate/content/table/FieldValueValidator.java:204-208 | every iteration raises actualFieldNumber by its field's increment |
| RecordValidation.ActualFieldNumberCounts | src/main/java/gov/nasa/pds/tools/validate/content/table/FieldValueValidator.java:169-208 | actualFieldNumber starts at 1 and grows by one per field read whose next field starts at another offset, and only then |
| RecordValidation.ValidationNext | src/main/java/gov/nasa/pds/tools/validate/content/table/FieldValueValidator.java:169-375 | the validation of n + 1 fields is that of n fields followed by field n's step |
| RecordValidation.StepFieldsBounded | src/main/java/gov/nasa/pds/tools/validate/content/table/FieldValueValidator.java:170-374 | from a counter in 1..i+1 one field reports fields in 1..fields.length and adds at most one |
| RecordValidation.ProblemFieldsInRange | src/main/java/gov/nasa/pds/tools/validate/content/table/FieldValueValidator.java:161-383 | every problem of the record names an existing field, 1 <= field <= fields.length |
| RecordValidation.StepTypeChecked | src/main/java/gov/nasa/pds/tools/validate/content/table/FieldValueValidator.java:305-322 | a readable field with content reports its type problem, whatever actualFieldNumber is |
| RecordValidation.TypeCheckedEveryField | src/main/java/gov/nasa/pds/tools/validate/content/table/FieldValueValidator.java:161-383 | every readable field with content is type-checked on its trimmed value, even after an earlier fatal field |
| FieldValueValidator.FieldValueValidator.constructor | src/main/java/gov/nasa/pds/tools/validate/content/table/FieldValueValidator.java:139-141 | the validator reports to the given listener |
| FieldValueValidator.FieldValueValidator.AddTableProblem | src/main/java/gov/nasa/pds/tools/validate/content/table/FieldValueValidator.java:858-870 | one problem with the severity, kind and field is appended, and nothing else changes |
| FieldValueValidator.FieldValueValidator.CheckFormat | src/main/java/gov/nasa/pds/tools/validate/content/table/FieldValueValidator.java:738-848 | appends exactly FormatEmission's problems and throws exactly when it does |
| FieldValueValidator.FieldValueValidator.CheckParsedFormat | src/main/java/gov/nasa/pds/tools/validate/content/table/FieldValueValidator.java:749-846 | on a parsed format, appends exactly the problems its sub-checks determine |
| FieldValueValidator.FieldValueValidator.CheckJustification | src/main/java/gov/nasa/pds/tools/validate/content/table/FieldValueValidator.java:749-771 | '+' reports trailing whitespace, '-' leading whitespace, ',' nothing; justified is false exactly when a problem was added |
| FieldValueValidator.FieldValueValidator.CheckSpecifier | src/main/java/gov/nasa/pds/tools/validate/content/table/FieldValueValidator.java:772-808 | appends SPECIFIER_MISMATCH exactly when the trimmed value does not suit the specifier (an ASCII float pattern, or BigInteger's sign and digits of any script) |
| FieldValueValidator.FieldValueValidator.CheckWidth | src/main/java/gov/nasa/pds/tools/validate/content/table/FieldValueValidator.java:809-818 | appends TOO_LONG exactly when the trimmed value's length() in UTF-16 units exceeds the width; fits tells whether it does not |
| FieldValueValidator.FieldValueValidator.CheckPrecision | src/main/java/gov/nasa/pds/tools/validate/content/table/FieldValueValidator.java:819-838 | for f, e or E with a precision, appends PRECISION_MISMATCH exactly when the UTF-16 length after the first '.' of the mantissa differs from it |
| FieldValueValidator.FieldValueValidator.CheckMinMax | src/main/java/gov/nasa/pds/tools/validate/content/table/FieldValueValidator.java:394-498 | appends exactly MinMaxEmission's problems and throws exactly when it does |
| FieldValueValidator.FieldValueValidator.CorrectLeadingZeros | src/main/java/gov/nasa/pds/tools/validate/content/table/FieldValueValidator.java:396-426 | gives the value and failure flag of the leading-zero correction |
| FieldValueValidator.FieldValueValidator.CheckBounds | src/main/java/gov/nasa/pds/tools/validate/content/table/FieldValueValidator.java:446-487 | appends one problem per declared bound, minimum first |
| FieldValueValidator.FieldValueValidator.CheckContent | src/main/java/gov/nasa/pds/tools/validate/content/table/FieldValueValidator.java:300-363 | appends exactly ContentEmission's problems and throws exactly when it does |
| FieldValueValidator.FieldValueValidator.CheckNonBlank | src/main/java/gov/nasa/pds/tools/validate/content/table/FieldValueValidator.java:305-345 | the type problem of the trimmed value, then the format check, then checkMinMax when a bound is declared |
| FieldValueValidator.FieldValueValidator.CheckFieldFormat | src/main/java/gov/nasa/pds/tools/validate/content/table/FieldValueValidator.java:325-338 | appends exactly FormatStep's problems: validation_format for a fixed record, field_format for a delimited one |
| FieldValueValidator.FieldValueValidator.CheckLayout | src/main/java/gov/nasa/pds/tools/validate/content/table/FieldValueValidator.java:184-296 | appends the quote, maximum-length (trimmed length() in UTF-16 units above max_length) and overlap problems in source order; fatal as LayoutCheck says |
| FieldValueValidator.FieldValueValidator.CheckOverlap | src/main/java/gov/nasa/pds/tools/validate/content/table/FieldValueValidator.java:249-296 | appends exactly the bit or byte overlap problem of LayoutCheck and reports whether it is fatal |
| FieldValueValidator.FieldValueValidator.ValidateField | src/main/java/gov/nasa/pds/tools/validate/content/table/FieldValueValidator.java:171-374 | appends exactly FieldStep's problems and gives its fatal flag and actualFieldNumber |
| FieldValueValidator.FieldValueValidator.Validate | src/main/java/gov/nasa/pds/tools/validate/content/table/FieldValueValidator.java:161-383 | appends exactly ValidateRecord's problems; fatal (the FieldContentFatalException) exactly when it says |
| FieldValueValidator.FieldValueValidator.ValidateDefault | src/main/java/gov/nasa/pds/tools/validate/content/table/FieldValueValidator.java:149-151 | validate with format checking on |
| DomReplay.Locate | src/main/java/gov/nasa/pds/tools/label/LabelValidator.java:925-938 | without a SourceLocation line and column become -1; with one they are copied, and the system id too when it has a URL; otherwise the system id is kept |
| DomReplay.DOMLocator.constructor | src/main/java/gov/nasa/pds/tools/label/LabelValidator.java:914-917 | the cursor starts at line 0, column 0, with the document URL as system id |
| DomReplay.DOMLocator.SetNode | src/main/java/gov/nasa/pds/tools/label/LabelValidator.java:925-938 | the cursor moves to Locate of the node's location |
| DomReplay.CopyAttributes | src/main/java/gov/nasa/pds/tools/label/LabelValidator.java:647-653 | one SAX attribute per Attr, in map order, with type "" |
| DomReplay.WalkNode | src/main/java/gov/nasa/pds/tools/label/LabelValidator.java:628-662 | the handler receives exactly Walk's events, and the locator ends where Walk says |
| DomReplay.WalkChildren | src/main/java/gov/nasa/pds/tools/label/LabelValidator.java:672-677 | the handler receives exactly WalkSeq's events for the children in order |
| DomReplay.EndEventCarriesOwnPosition | src/main/java/gov/nasa/pds/tools/label/LabelValidator.java:628-658 | a document or element's end event carries its own line and column, the same as its start event; the locator is left there |
| DomReplay.WalkEndsAtNode | src/main/java/gov/nasa/pds/tools/label/LabelValidator.java:628-662 | after any node the locator is at the node's own line and column |
| DomReplay.WalkWellNested | src/main/java/gov/nasa/pds/tools/label/LabelValidator.java:628-662 | the replay of a node closes every document and element it opens, innermost first |
| DomReplay.WalkSeqWellNested | src/main/java/gov/nasa/pds/tools/label/LabelValidator.java:672-677 | the replay of a child list is well nested |
| DomReplay.WalkKeepsText | src/main/java/gov/nasa/pds/tools/label/LabelValidator.java:638-641 | the characters() events give exactly the tree's text values in document order |
| DomReplay.WalkSeqKeepsText | src/main/java/gov/nasa/pds/tools/label/LabelValidator.java:672-677 | the same for a list of children |
| DomReplay.CommentMovesLocatorOnly | src/main/java/gov/nasa/pds/tools/label/LabelValidator.java:629-637 | a comment emits nothing but moves the locator to its position |
| Schematron.RoleSeverityCases | src/main/java/gov/nasa/pds/tools/label/LabelValidator.java:782-795 | "warn" or "warning", ignoring case with Java's case mappings, gives WARNING, "info" gives INFO, and anything else or no role gives ERROR |
| Schematron.RoleIgnoresCase | src/main/java/gov/nasa/pds/tools/label/LabelValidator.java:787-791 | "WARNING", "Warn" and "INFO" select the same severities as lower case; "fatal" is an error |
| Schematron.RoleFoldsTurkishI | src/main/java/gov/nasa/pds/tools/label/LabelValidator.java:787-791 | "info" with a dotless i or a dotted capital I informs, and "warning" with a dotless i warns |
| Schematron.FailedAssertKeepsRoleSeverity | src/main/java/gov/nasa/pds/tools/label/LabelValidator.java:782-829 | a produced problem always has the role's severity and type, with or without a position |
| Schematron.NoPositionFallsBackToContext | src/main/java/gov/nasa/pds/tools/label/LabelValidator.java:797-819 | without a SourceLocation the problem is at the label URL, line and column -1, with the trimmed text then the context and test |
| Schematron.PositionIsCopied | src/main/java/gov/nasa/pds/tools/label/LabelValidator.java:806-815 | with a SourceLocation the problem takes its line and column and the trimmed text, and its URL when one parses |
| Schematron.FailedAssertFailsExactly | src/main/java/gov/nasa/pds/tools/label/LabelValidator.java:797-817 | processFailedAssert fails exactly without a location, with an XPath that selects no node, or without a test when there is no position |
| Schematron.CollectConcatenates | src/main/java/gov/nasa/pds/tools/label/LabelValidator.java:683-719 | collecting from two lists in turn is collecting from their concatenation, in order |
| Schematron.ContributeAfter | src/main/java/gov/nasa/pds/tools/label/LabelValidator.java:683-719 | a contribution added after two joined collections is added to the second |
| Schematron.CollectAccountsForEveryModel | src/main/java/gov/nasa/pds/tools/label/LabelValidator.java:683-719 | each matching xml-model instruction gives exactly one reference or one SCHEMATRON_ERROR at the label URL; nothing else gives anything |
| Schematron.NoXmlModelNoReferences | src/main/java/gov/nasa/pds/tools/label/LabelValidator.java:684-686 | a list without xml-model instructions yields no reference and no problem |
| Schematron.CollapsedDataSameContribution | src/main/java/gov/nasa/pds/tools/label/LabelValidator.java:688-690 | data differing only in its whitespace runs gives the same contribution |
| Schematron.LoadSourceEffect | src/main/java/gov/nasa/pds/tools/label/LabelValidator.java:727-763 | one source keeps every cached entry; a compiling miss adds exactly its key; anything else returns the cached transformer or reports one SCHEMATRON_ERROR |
| Schematron.LoadSourceShifts | src/main/java/gov/nasa/pds/tools/label/LabelValidator.java:727-763 | one source's step does not look at the problems already reported; it only appends to them |
| Schematron.LoadKeepsCachedEntries | src/main/java/gov/nasa/pds/tools/label/LabelValidator.java:742-749 | no cached entry is ever replaced |
| Schematron.NewKeysGrow | src/main/java/gov/nasa/pds/tools/label/LabelValidator.java:749 | adding an absent key adds one to the new-key count |
| Schematron.LoadAccountsForEverySource | src/main/java/gov/nasa/pds/tools/label/LabelValidator.java:726-764 | each source has exactly one effect: a returned transformer, a new cache entry or one problem |
| Schematron.LoadProblemsAreSchematronErrors | src/main/java/gov/nasa/pds/tools/label/LabelValidator.java:755-763 | every load problem is a SCHEMATRON_ERROR at the label URL starting "Error occurred while loading schematron: " |
| Schematron.LoadReturnsCachedTransformers | src/main/java/gov/nasa/pds/tools/label/LabelValidator.java:742-744 | every transformer returned is the cached one of some key |
| Schematron.ColdLoadReturnsNothing | src/main/java/gov/nasa/pds/tools/label/LabelValidator.java:742-754 | with an empty cache, no catalog and distinct sources nothing is returned, and only sources are cached |
| LabelValidator.ConfigurationAfterSet | src/main/java/gov/nasa/pds/tools/label/LabelValidator.java:863-870 | setting a key changes what it reads and nothing else; an absent key reads false |
| LabelValidator.SchematronFlagCases | src/main/java/gov/nasa/pds/tools/label/LabelValidator.java:337-355 | unset skipProductValidation fails; otherwise true unless skipping products on a label that is neither bundle nor collection |
| LabelValidator.CompileAll | src/main/java/gov/nasa/pds/tools/label/LabelValidator.java:466-475 | one compiled transformer per user schematron file, in order |
| LabelValidator.SelectionKeptWithoutLabelSchematrons | src/main/java/gov/nasa/pds/tools/label/LabelValidator.java:459-488 | without label schematrons a non-empty choice is kept |
| LabelValidator.LabelSchematronsFollowTheLabel | src/main/java/gov/nasa/pds/tools/label/LabelValidator.java:455-488 | with label schematrons and no user transformers each label gets its own loaded schematrons |
| LabelValidator.UserTransformersOnlyAfterFirstLabel | src/main/java/gov/nasa/pds/tools/label/LabelValidator.java:459-488 | with label schematrons user transformers replace the label's own only once something is cached |
| LabelValidator.SelectionKeepsLabelCache | src/main/java/gov/nasa/pds/tools/label/LabelValidator.java:459-488 | the label-schematron cache keeps every entry whatever is chosen |
| LabelValidator.FlagOffReportsNothing | src/main/java/gov/nasa/pds/tools/label/LabelValidator.java:496-497 | with the flag off no schematron is applied and nothing is reported |
| LabelValidator.ReportAssertsMapsEach | src/main/java/gov/nasa/pds/tools/label/LabelValidator.java:508-512 | when every failed assert maps, the report gives one problem each, in order |
| LabelValidator.ReportAssertsThrowsExactly | src/main/java/gov/nasa/pds/tools/label/LabelValidator.java:508-512 | a report throws exactly when some failed assert cannot be mapped |
| LabelValidator.ReportKinds | src/main/java/gov/nasa/pds/tools/label/LabelValidator.java:496-513 | every reported problem is a schematron error, warning or info |
| LabelValidator.ReportAssertKinds | src/main/java/gov/nasa/pds/tools/label/LabelValidator.java:508-512 | every problem of one report is a schematron error, warning or info |
| LabelValidator.LabelValidator.constructor | src/main/java/gov/nasa/pds/tools/label/LabelValidator.java:155-206 | both checks configured true, nothing cached, no user schematrons, no resolver, skipProductValidation unset, no files processed |
| LabelValidator.LabelValidator.GetConfiguration | src/main/java/gov/nasa/pds/tools/label/LabelValidator.java:863-866 | true iff the key is present and maps to true |
| LabelValidator.LabelValidator.SetConfiguration | src/main/java/gov/nasa/pds/tools/label/LabelValidator.java:868-870 | the key is stored; caches, counter and flags are unchanged |
| LabelValidator.LabelValidator.SetSchemaCheck | src/main/java/gov/nasa/pds/tools/label/LabelValidator.java:841-844 | sets the schema check and useLabelSchema and nothing else |
| LabelValidator.LabelValidator.SetSchemaCheckDefault | src/main/java/gov/nasa/pds/tools/label/LabelValidator.java:837-839 | the one-argument overload sets the schema check and turns useLabelSchema off |
| LabelValidator.LabelValidator.SetSchematronCheck | src/main/java/gov/nasa/pds/tools/label/LabelValidator.java:854-857 | sets the schematron check and useLabelSchematron and nothing else |
| LabelValidator.LabelValidator.SetSchematronCheckDefault | src/main/java/gov/nasa/pds/tools/label/LabelValidator.java:850-852 | the one-argument overload sets the schematron check and turns useLabelSchematron off |
| LabelValidator.LabelValidator.SetSkipProductValidation | src/main/java/gov/nasa/pds/tools/label/LabelValidator.java:859-861 | skipProductValidation becomes the flag |
| LabelValidator.LabelValidator.SetSchematrons | src/main/java/gov/nasa/pds/tools/label/LabelValidator.java:224-233 | stores the user transformers |
| LabelValidator.LabelValidator.SetSchematronFiles | src/main/java/gov/nasa/pds/tools/label/LabelValidator.java:245-253 | stores the user schematron files |
| LabelValidator.LabelValidator.SetLabelSchematrons | src/main/java/gov/nasa/pds/tools/label/LabelValidator.java:235-243 | replaces the label-schematron cache |
| LabelValidator.LabelValidator.SetCatalogs | src/main/java/gov/nasa/pds/tools/label/LabelValidator.java:255-260 | installs the catalog resolver and turns on label schematrons |
| LabelValidator.LabelValidator.DetermineSchematronValidationFlag | src/main/java/gov/nasa/pds/tools/label/LabelValidator.java:337-355 | the flag of SchematronFlagCases for the current skipProductValidation; false only when skipping is on |
| LabelValidator.LabelValidator.GetSchematrons | src/main/java/gov/nasa/pds/tools/label/LabelValidator.java:679-721 | returns exactly CollectSchematrons' references and appends exactly its problems |
| LabelValidator.LabelValidator.LoadLabelSchematrons | src/main/java/gov/nasa/pds/tools/label/LabelValidator.java:723-766 | the cache, returned transformers and problems are exactly LoadAll's |
| LabelValidator.LabelValidator.LoadSchematron | src/main/java/gov/nasa/pds/tools/label/LabelValidator.java:727-763 | one iteration has exactly LoadSource's effect on cache, transformers and problems |
| LabelValidator.LabelValidator.CompileUserSchematrons | src/main/java/gov/nasa/pds/tools/label/LabelValidator.java:466-475 | returns CompileAll of the files |
| LabelValidator.LabelValidator.SelectSchematrons | src/main/java/gov/nasa/pds/tools/label/LabelValidator.java:459-488 | cachedSchematron, the label cache and the problems become Selection's |
| LabelValidator.LabelValidator.ReportFailedAsserts | src/main/java/gov/nasa/pds/tools/label/LabelValidator.java:506-512 | appends ReportAsserts' problems and throws exactly when it does |
| LabelValidator.LabelValidator.ApplySchematrons | src/main/java/gov/nasa/pds/tools/label/LabelValidator.java:496-513 | appends ReportAll's problems for the cached schematrons and throws exactly when it does |
| LabelValidator.LabelValidator.SchematronPhase | src/main/java/gov/nasa/pds/tools/label/LabelValidator.java:453-514 | references, choice and reports in order; the handler gains exactly SchematronProblems |
| LabelValidator.LabelValidator.CompletesExactly | src/main/java/gov/nasa/pds/tools/label/LabelValidator.java:384-536 | a label completes exactly when skipProductValidation is set, the label schema is present if required, and no failed assert fails to map; an unset flag is a NullPointerException whichever phases run |
| LabelValidator.LabelValidator.ParseAndValidate | src/main/java/gov/nasa/pds/tools/label/LabelValidator.java:371-542 | the outcome is ExpectedOutcome; filesProcessed rises by one iff it completes; the schema validator gets the replay from line 0, column 0 iff schema checking is on and skipProductValidation is false; the schematron state changes only when that phase is reached |

## Left out

- XML parsing, schema validation and the schematron engine are not modelled. Their results come in as parameters: a parsed label, and the failed asserts a schematron finds.
- createParserIfNeeded, loadSchemaSources, setSchema and getCatalogResolver configure parsers and schema factories, and are not part of this model.
- The external and document validators run after the schematron phase (LabelValidator.java lines 516-534). They are not modelled; only the unset-flag exception that line 517 can raise is.
- The SCHEMATRON_SCHEMATYPENS_PATTERN constant is not part of this model. The match and its group 1 are a parameter.
- The date and time grammars (DateTimeValidator), java.net.URI syntax and FilenameUtils are uninterpreted parameters of checkType.
- FieldRange.BoundsVerdict: a double is `JavaDouble`, a real, NaN or an infinity, and comparisons follow Java's `<` and `>`. Rounding to 64 bits and the Double.toString text come from the NumberOracles parameters. The two zeros are one value: checkMinMax's comparisons cannot tell them apart.
- JavaText.EqualsIgnoreCase: it holds the case mappings whose image is an ASCII letter (A-Z, a-z, U+0130, U+0131, U+017F, U+212A) and treats other chars as their own case. So it is Java's comparison whenever one side is ASCII. Every call compares against an ASCII literal ("warn", "warning", "info", "xml-model").
- JavaText.CharacterDigit: Character.digit in radix 10 uses the decimal-digit blocks of the Basic Multilingual Plane as of Unicode 7.0, which later versions keep. Java 8 (Unicode 6.2) lacks the Sinhala Lith (U+0DE6) and Myanmar Tai Laing (U+A9F0) digits, so the model accepts two blocks that Java 8 refuses.
- LabelValidator.LabelValidator.SetSchematrons: setSchematrons and setLabelSchematrons keep the caller's List and Map by reference, so later changes by the caller show through. The model copies the value (a `seq`, a `map`) and does not capture that aliasing.
- A string is a sequence of Unicode scalar values. `length()` is `JavaText.Utf16Length`, which counts two units for a char beyond U+FFFF; a lone surrogate, which a Java String can hold, is not representable. The other `length()` and `charAt` uses (the ASCII_String test, message truncation, the 255-char limits behind ASCII-only patterns) give the same verdict either way and use the char count.
- Problem messages are not modelled for table problems and for exceptions (which are only kinds). The record location is left out of TableProblem.
- Logging, System.out and System.err output, stack traces written to file, and timing (totalTimeElapsed) are left out as I/O.
- `synchronized` on parseAndValidate is left out. The model is sequential.
- filesProcessed is a `nat`. Java's `long` cannot overflow within a realistic number of labels.
- All CharacterData that is not a Comment is modelled as a Text node.
- A null value stored in the label-schematron map is not modelled: a map entry always holds a transformer.
- Compilation errors of the user's schematron files are not modelled. The compileUser parameter always gives a transformer.
- Schematron.LoadSource follows the code: a cache miss that compiles is cached but not added to the returned list.
- Schematron.ProcessFailedAssert follows the code: a problem without a position keeps the severity the role selected.
