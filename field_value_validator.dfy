/**
 * The FieldValueValidator class: it holds the ProblemListener and appends to it,
 * check by check, what RecordValidation, FieldFormat and FieldRange specify.
 * Every method is proved to append exactly the problems of its specification
 * function and to raise an exception (threw) exactly when that function does.
 */
module FieldValueValidator {
  import opened Wrappers
  import opened JavaText
  import opened FieldTypes
  import opened FieldFormat
  import opened FieldRange
  import opened RecordValidation
  import opened Problems

  class FieldValueValidator {
    /** The ProblemListener the problems go to. */
    const listener: ProblemSink<TableProblem>

    constructor (listener: ProblemSink<TableProblem>)
      ensures this.listener == listener
    {
      this.listener := listener;
    }

    /** addTableProblem: one TableContentProblem at the given 1-based field. */
    method AddTableProblem(severity: Severity, kind: ProblemType, field: int)
      modifies listener
      ensures listener.problems == old(listener.problems) + [TableProblem(severity, kind, field)]
    {
      listener.Add(TableProblem(severity, kind, field));
    }

    /**
     * checkFormat(value, format, field): justification, specifier, width and
     * precision, then FORMAT_MATCH while isValid holds. threw is the
     * NumberFormatException of Integer.parseInt on a width or precision above 2^31 - 1.
     */
    method CheckFormat(value: string, format: string, field: int) returns (threw: bool)
      modifies listener
      ensures listener.problems == old(listener.problems) + FormatEmission(value, format, field).problems
      ensures threw == FormatEmission(value, format, field).threw
    {
      var matcher := ParseFormat(format);
      if matcher.None? {
        return false;
      }
      var f := matcher.value;
      var width := ParseInt(f.width);
      if width.None? {
        return true;
      }
      var precision: Option<nat> := None;
      if f.precision.Some? {
        precision := ParseInt(f.precision.value);
        if precision.None? {
          return true;
        }
      }
      CheckParsedFormat(value, f, width.value, precision, field);
      threw := false;
    }

    /** The checks of checkFormat once the format has matched and its numbers are ints. */
    method CheckParsedFormat(value: string, f: FormatSpec, width: nat, precision: Option<nat>, field: int)
      modifies listener
      ensures listener.problems == old(listener.problems) + CheckedProblems(value, f, width, precision, field)
    {
      var t := Trim(value);
      ghost var start := listener.problems;
      var justified := CheckJustification(value, f.flag, field);
      ghost var justification := listener.problems[|start|..];
      CheckSpecifier(t, f.specifier, field);
      ghost var specifier := listener.problems[|start + justification|..];
      var fits := CheckWidth(t, width, field);
      ghost var length := listener.problems[|start + justification + specifier|..];
      var precise := CheckPrecision(t, f.specifier, precision, field);
      ghost var digits := listener.problems[|start + justification + specifier + length|..];
      var isValid := justified && fits && precise;
      if isValid {
        AddTableProblem(Debug, FieldValueFormatMatch, field);
      }
      ghost var matched := if isValid then [TableProblem(Debug, FieldValueFormatMatch, field)] else [];
      assert listener.problems == start + justification + specifier + length + digits + matched;
      Associate(start, justification, specifier, length, digits, matched);
    }

    /**
     * The justification check of checkFormat: a "+" flag refuses trailing
     * whitespace (.*\s+), a "-" flag leading whitespace (\s+.*), a "," flag nothing.
     */
    method CheckJustification(value: string, flag: Option<char>, field: int) returns (justified: bool)
      modifies listener
      ensures var notRight := flag == Some('+') && HasTrailingWhitespace(value);
        var notLeft := flag == Some('-') && HasLeadingWhitespace(value);
        && justified == (!notRight && !notLeft)
        && listener.problems == old(listener.problems)
             + (if notRight then [TableProblem(Error, FieldValueNotRightJustified, field)]
                else if notLeft then [TableProblem(Error, FieldValueNotLeftJustified, field)] else [])
    {
      justified := true;
      if flag.Some? {
        if flag.value == '+' {
          if HasTrailingWhitespace(value) {
            AddTableProblem(Error, FieldValueNotRightJustified, field);
            justified := false;
          }
        } else if flag.value == '-' {
          if HasLeadingWhitespace(value) {
            AddTableProblem(Error, FieldValueNotLeftJustified, field);
            justified := false;
          }
        }
      }
    }

    /**
     * The specifier check of checkFormat on the trimmed value: "e" and "E" need
     * a number with an exponent, "f" one without, "d" a decimal integer, "o" and
     * "x" a decimal integer that is not negative, "s" anything.
     */
    method CheckSpecifier(t: string, specifier: char, field: int)
      modifies listener
      ensures listener.problems == old(listener.problems)
        + (if SpecifierAccepts(specifier, t) then [] else [TableProblem(Error, FieldValueFormatSpecifierMismatch, field)])
    {
      if !SpecifierAccepts(specifier, t) {
        AddTableProblem(Error, FieldValueFormatSpecifierMismatch, field);
      }
    }

    /** The width check of checkFormat: the trimmed value may not be longer than the width. */
    method CheckWidth(t: string, width: nat, field: int) returns (fits: bool)
      modifies listener
      ensures fits == (Utf16Length(t) <= width)
      ensures listener.problems == old(listener.problems)
        + (if Utf16Length(t) > width then [TableProblem(Error, FieldValueTooLong, field)] else [])
    {
      fits := true;
      if Utf16Length(t) > width {
        AddTableProblem(Error, FieldValueTooLong, field);
        fits := false;
      }
    }

    /**
     * The precision check of checkFormat: for an "f", "e" or "E" specifier with a
     * precision, the digits after the '.' of the mantissa must number exactly that.
     */
    method CheckPrecision(t: string, specifier: char, precision: Option<nat>, field: int) returns (precise: bool)
      modifies listener
      ensures var imprecise := precision.Some? && (specifier == 'f' || IsExponentMark(specifier))
                               && FractionLength(t) != precision.value;
        && precise == !imprecise
        && listener.problems == old(listener.problems)
             + (if imprecise then [TableProblem(Error, FieldValueFormatPrecisionMismatch, field)] else [])
    {
      precise := true;
      if precision.Some? {
        if specifier == 'f' || IsExponentMark(specifier) {
          var length := FractionLength(t);
          if length != precision.value {
            AddTableProblem(Error, FieldValueFormatPrecisionMismatch, field);
            precise := false;
          }
        }
      }
    }

    /**
     * checkMinMax(value, minimum, maximum, field, type): the leading-zero
     * correction, then one problem per declared bound, or NOT_A_NUMBER. threw
     * is the NumberFormatException of NumberUtils.createDouble.
     */
    method CheckMinMax(value: string, minimum: Option<JavaDouble>, maximum: Option<JavaDouble>, field: int,
                       t: FieldType, o: NumberOracles) returns (threw: bool)
      modifies listener
      ensures listener.problems == old(listener.problems) + MinMaxEmission(value, minimum, maximum, field, t, o).problems
      ensures threw == MinMaxEmission(value, minimum, maximum, field, t, o).threw
    {
      var v, issueWithLeadingZerosRemoval := CorrectLeadingZeros(value, t, o);
      if !issueWithLeadingZerosRemoval || o.isCreatable(v) {
        var number := o.createDouble(v);
        if number.None? {
          return true;
        }
        CheckBounds(number.value, minimum, maximum, field);
      } else {
        AddTableProblem(Error, FieldValueNotANumber, field);
      }
      threw := false;
    }

    /**
     * The leading-zero correction of checkMinMax (issue 297): the trimmed value,
     * or Double.toString(Double.parseDouble(v)) for a value of ASCII_Real,
     * ASCII_Integer or ASCII_NonNegative_Integer with a leading zero;
     * parseFailed when that parseDouble raised NumberFormatException.
     */
    method CorrectLeadingZeros(value: string, t: FieldType, o: NumberOracles) returns (v: string, parseFailed: bool)
      ensures Corrected(v, parseFailed) == Correct(value, t, o)
    {
      v := Trim(value);
      parseFailed := false;
      if CorrectsLeadingZeros(t) && HasLeadingZero(v) {
        match o.parseDouble(v)
        case None =>
          parseFailed := true;
        case Some(x) =>
          v := o.doubleToString(x);
      }
    }

    /** The comparison of checkMinMax: one problem for the minimum, then one for the maximum, each when declared. */
    method CheckBounds(n: JavaDouble, minimum: Option<JavaDouble>, maximum: Option<JavaDouble>, field: int)
      modifies listener
      ensures listener.problems == old(listener.problems) + BoundProblems(n, minimum, maximum, field)
    {
      if minimum.Some? {
        if Less(n, minimum.value) {
          AddTableProblem(Error, FieldValueOutOfMinMaxRange, field);
        } else {
          AddTableProblem(Debug, FieldValueInMinMaxRange, field);
        }
      }
      ghost var low := listener.problems;
      if maximum.Some? {
        if Less(maximum.value, n) {
          AddTableProblem(Error, FieldValueOutOfMinMaxRange, field);
        } else {
          AddTableProblem(Debug, FieldValueInMinMaxRange, field);
        }
      }
      AppendAssociates(old(listener.problems), if minimum.Some? then [BoundProblem(Less(n, minimum.value), field)] else [],
                       if maximum.Some? then [BoundProblem(Less(maximum.value, n), field)] else []);
    }

    /**
     * The blank handling and the type, format and min/max checks of one value
     * (the part of the loop body after the overlap checks). threw is an exception
     * of checkFormat or checkMinMax, which the loop body catches.
     */
    method CheckContent(kind: RecordKind, value: string, f: FieldDescription, field: int,
                        checkFieldFormat: bool, o: Collaborators) returns (threw: bool)
      modifies listener
      ensures listener.problems == old(listener.problems) + ContentEmission(kind, value, f, field, checkFieldFormat, o).problems
      ensures threw == ContentEmission(kind, value, f, field, checkFieldFormat, o).threw
    {
      var t := Trim(value);
      if value == [] || (t == [] && kind == Fixed) {
        AddTableProblem(Debug, BlankFieldValue, field);
        threw := false;
      } else if t != [] {
        threw := CheckNonBlank(kind, value, f, field, checkFieldFormat, o);
      } else {
        if CheckType(value, f.fieldType, o.types) == TypeOk {
          AddTableProblem(Debug, BlankFieldValue, field);
        } else {
          AddTableProblem(Error, FieldValueDataTypeMismatch, field);
        }
        threw := false;
      }
    }

    /** checkType on the trimmed value, then the format check, then checkMinMax when a bound is declared. */
    method CheckNonBlank(kind: RecordKind, value: string, f: FieldDescription, field: int,
                         checkFieldFormat: bool, o: Collaborators) returns (threw: bool)
      modifies listener
      ensures var e := Checked(TypeProblem(Trim(value), f.fieldType, o.types, field),
                               FormatStep(kind, value, f, field, checkFieldFormat),
                               f.minimum.Some? || f.maximum.Some?,
                               MinMaxEmission(Trim(value), f.minimum, f.maximum, field, f.fieldType, o.numbers));
        listener.problems == old(listener.problems) + e.problems && threw == e.threw
    {
      var t := Trim(value);
      ghost var start := listener.problems;
      ghost var typed := TypeProblem(t, f.fieldType, o.types, field);
      ghost var format := FormatStep(kind, value, f, field, checkFieldFormat);
      ghost var range := MinMaxEmission(t, f.minimum, f.maximum, field, f.fieldType, o.numbers);
      if CheckType(t, f.fieldType, o.types) == TypeOk {
        AddTableProblem(Debug, FieldValueDataTypeMatch, field);
      } else {
        AddTableProblem(Error, FieldValueDataTypeMismatch, field);
      }
      assert listener.problems == start + [typed];
      threw := CheckFieldFormat(kind, value, f, field, checkFieldFormat);
      AppendAssociates(start, [typed], format.problems);
      if !threw && (f.minimum.Some? || f.maximum.Some?) {
        threw := CheckMinMax(t, f.minimum, f.maximum, field, f.fieldType, o.numbers);
        AppendAssociates(start, [typed] + format.problems, range.problems);
      }
    }

    /**
     * The format check of a value with content: validation_format for a
     * fixed-width record, field_format for a delimited one, when non-empty and
     * checkFieldFormat holds.
     */
    method CheckFieldFormat(kind: RecordKind, value: string, f: FieldDescription, field: int,
                            checkFieldFormat: bool) returns (threw: bool)
      modifies listener
      ensures listener.problems == old(listener.problems) + FormatStep(kind, value, f, field, checkFieldFormat).problems
      ensures threw == FormatStep(kind, value, f, field, checkFieldFormat).threw
    {
      threw := false;
      if checkFieldFormat {
        if kind == Fixed && f.validationFormat != [] {
          threw := CheckFormat(value, f.validationFormat, field);
        }
        if kind == Delimited && f.fieldFormat != [] {
          threw := CheckFormat(value, f.fieldFormat, field);
        }
      }
    }

    /**
     * The checks of field i before its content: the embedded-quote, maximum
     * length and overlap checks. fatal is fatalError set by a bit or byte overlap.
     */
    method CheckLayout(fields: seq<FieldDescription>, i: nat, value: string, afn: int, checkFieldFormat: bool)
      returns (fatal: bool)
      requires i < |fields|
      modifies listener
      ensures var layout := LayoutCheck(fields, i, afn);
        && listener.problems == old(listener.problems)
             + (QuoteProblems(value, i + 1) + MaxLengthProblems(value, fields[i], i + 1) + ByteOverlapProblems(fields, i, checkFieldFormat))
             + layout.problems
        && fatal == layout.fatal
    {
      ghost var start := listener.problems;
      ghost var checks := start;
      if HasEmbeddedQuote(value) {
        AddTableProblem(Error, InvalidFieldValue, i + 1);
      }
      checks := checks + QuoteProblems(value, i + 1);
      assert listener.problems == checks;
      if fields[i].maxLength != -1 && Utf16Length(Trim(value)) > fields[i].maxLength as int {
        AddTableProblem(Error, FieldValueTooLong, i + 1);
      }
      checks := checks + MaxLengthProblems(value, fields[i], i + 1);
      assert listener.problems == checks;
      if checkFieldFormat && i + 1 < |fields| && EndOffset(fields[i]) > fields[i + 1].offset {
        AddTableProblem(Error, FieldValueOverlap, i + 1);
      }
      checks := checks + ByteOverlapProblems(fields, i, checkFieldFormat);
      assert listener.problems == checks;
      AppendAssociates(start, QuoteProblems(value, i + 1), MaxLengthProblems(value, fields[i], i + 1));
      AppendAssociates(start, QuoteProblems(value, i + 1) + MaxLengthProblems(value, fields[i], i + 1),
                       ByteOverlapProblems(fields, i, checkFieldFormat));
      fatal := CheckOverlap(fields, i, afn);
    }

    /**
     * The overlap check against the next field that sets fatalError: bit fields
     * by their start and stop bits, reported at actualFieldNumber; other fields by
     * their offsets and lengths.
     */
    method CheckOverlap(fields: seq<FieldDescription>, i: nat, afn: int) returns (fatal: bool)
      requires i < |fields|
      modifies listener
      ensures var layout := LayoutCheck(fields, i, afn);
        listener.problems == old(listener.problems) + layout.problems && fatal == layout.fatal
    {
      fatal := false;
      if i + 1 < |fields| {
        if IsBitField(fields[i]) {
          if fields[i + 1].startBit > 1 {
            if fields[i].stopBit >= fields[i + 1].startBit {
              AddTableProblem(Error, FieldValueOverlap, afn);
              fatal := true;
            }
          }
        } else if fields[i].offset > fields[i + 1].offset || EndOffset(fields[i]) > fields[i + 1].offset {
          AddTableProblem(Error, FieldValueOverlap, i + 1);
          fatal := true;
        }
      }
    }

    /**
     * One iteration of the loop of validate: field i read with getString(i + 1),
     * checked, and an exception anywhere caught as BAD_FIELD_READ with fatalError
     * set. afn' is actualFieldNumber afterwards.
     */
    method ValidateField(r: TableRecord, fields: seq<FieldDescription>, i: nat, afn: int,
                         checkFieldFormat: bool, o: Collaborators) returns (fatal: bool, afn': int)
      requires i < |fields|
      modifies listener
      ensures var s := FieldStep(r, fields, i, afn, checkFieldFormat, o);
        listener.problems == old(listener.problems) + s.problems && fatal == s.fatal && afn' == s.afn
    {
      var read := FieldString(r, i);
      if read.None? {
        AddTableProblem(Error, BadFieldRead, i + 1);
        return true, afn;
      }
      var value := read.value;
      if IsLoneQuote(value) {
        AddTableProblem(Error, BadFieldRead, i + 1);
        return true, afn;
      }
      afn' := afn;
      if i < |fields| - 1 && fields[i + 1].offset != fields[i].offset {
        afn' := afn + 1;
      }
      ghost var start := listener.problems;
      ghost var checks := QuoteProblems(value, i + 1) + MaxLengthProblems(value, fields[i], i + 1)
                          + ByteOverlapProblems(fields, i, checkFieldFormat);
      ghost var layout := LayoutCheck(fields, i, afn');
      ghost var content := ContentEmission(r.kind, value, fields[i], i + 1, checkFieldFormat, o);
      fatal := CheckLayout(fields, i, value, afn', checkFieldFormat);
      var threw := CheckContent(r.kind, value, fields[i], i + 1, checkFieldFormat, o);
      if threw {
        AddTableProblem(Error, BadFieldRead, i + 1);
        fatal := true;
      }
      assert FieldStep(r, fields, i, afn, checkFieldFormat, o) == ReadStep(checks, layout, content, i + 1, afn');
      Associate4(start, checks, layout.problems, content.problems, if content.threw then [BadRead(i + 1)] else []);
    }

    /**
     * validate(record, fields, checkFieldFormat): every field in turn, even after
     * fatalError is set. fatal true is the FieldContentFatalException thrown after
     * the loop.
     */
    method Validate(r: TableRecord, fields: seq<FieldDescription>, checkFieldFormat: bool, o: Collaborators)
      returns (fatal: bool)
      modifies listener
      ensures var s := ValidateRecord(r, fields, checkFieldFormat, o);
        listener.problems == old(listener.problems) + s.problems && fatal == s.fatal
    {
      fatal := false;
      var actualFieldNumber := 1;
      for i := 0 to |fields|
        invariant listener.problems == old(listener.problems) + Validation(r, fields, checkFieldFormat, o, i).problems
        invariant fatal == Validation(r, fields, checkFieldFormat, o, i).fatal
        invariant actualFieldNumber == Validation(r, fields, checkFieldFormat, o, i).afn
      {
        ghost var done := Validation(r, fields, checkFieldFormat, o, i);
        var fieldFatal, next := ValidateField(r, fields, i, actualFieldNumber, checkFieldFormat, o);
        fatal := fatal || fieldFatal;
        actualFieldNumber := next;
        ValidationNext(r, fields, checkFieldFormat, o, i);
        AppendAssociates(old(listener.problems), done.problems, FieldStep(r, fields, i, done.afn, checkFieldFormat, o).problems);
      }
    }

    /** validate(record, fields): the same with checkFieldFormat true. */
    method ValidateDefault(r: TableRecord, fields: seq<FieldDescription>, o: Collaborators) returns (fatal: bool)
      modifies listener
      ensures var s := ValidateRecord(r, fields, true, o);
        listener.problems == old(listener.problems) + s.problems && fatal == s.fatal
    {
      fatal := Validate(r, fields, true, o);
    }
  }
}
