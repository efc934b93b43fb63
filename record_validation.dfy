/**
 * validate(record, fields, checkFieldFormat) of FieldValueValidator, as a
 * specification: what one pass over a record appends to the problem listener,
 * field by field, and whether it ends in FieldContentFatalException. The class
 * FieldValueValidator.FieldValueValidator carries out the same steps in place.
 */
module RecordValidation {
  import opened Wrappers
  import opened JavaText
  import opened FieldTypes
  import opened FieldFormat
  import opened FieldRange
  import opened Problems

  /** Java's int. */
  newtype Int32 = x: int | -0x8000_0000 <= x < 0x8000_0000

  /** The int that Java arithmetic yields for the mathematical value x (wrap-around). */
  function Wrap32(x: int): (r: Int32)
    ensures -0x8000_0000 <= x < 0x8000_0000 ==> r as int == x
    ensures (r as int - x) % 0x1_0000_0000 == 0
  {
    ((x + 0x8000_0000) % 0x1_0000_0000 - 0x8000_0000) as Int32
  }

  /** A FieldDescription: the getters validate reads. A minimum or maximum may be null. */
  datatype FieldDescription = FieldDescription(
    offset: Int32, length: Int32, startBit: Int32, stopBit: Int32,
    fieldType: FieldType, maxLength: Int32,
    minimum: Option<JavaDouble>, maximum: Option<JavaDouble>,
    fieldFormat: string, validationFormat: string)

  /** FixedTableRecord or DelimitedTableRecord. */
  datatype RecordKind = Fixed | Delimited

  /**
   * A TableRecord: values[i] is what getString(i + 1) returns, None when it
   * throws; a field past the end of the record cannot be read either.
   */
  datatype TableRecord = TableRecord(kind: RecordKind, values: seq<Option<string>>)

  function FieldString(r: TableRecord, i: nat): Option<string> {
    if i < |r.values| then r.values[i] else None
  }

  /** The library calls checkType and checkMinMax make. */
  datatype Collaborators = Collaborators(types: TypeOracles, numbers: NumberOracles)

  /** offset + length in int arithmetic: where the field ends. */
  function EndOffset(f: FieldDescription): Int32 {
    Wrap32(f.offset as int + f.length as int)
  }

  /** A bit field whose stop bit is not the field's last bit (length * 8 in int arithmetic). */
  predicate IsBitField(f: FieldDescription) {
    f.stopBit > 0 && f.stopBit != Wrap32(f.length as int * 8)
  }

  // ---------------------------------------------------------------------
  // One field

  /** substring(1, length - 1) on a lone double quote throws. */
  predicate IsLoneQuote(v: string) { v == "\"" }

  /** A value enclosed in double quotes that holds another double quote inside (issue 298). */
  predicate HasEmbeddedQuote(v: string) {
    |v| >= 2 && v[0] == '"' && v[|v| - 1] == '"' && Contains(v[1..|v| - 1], '"')
  }

  /** actualFieldNumber after field i: it grows when the next field starts at another offset (issue 209). */
  function NextActualField(fields: seq<FieldDescription>, i: nat, afn: int): int {
    if i + 1 < |fields| && fields[i + 1].offset != fields[i].offset then afn + 1 else afn
  }

  /** TOO_LONG for the maximum field length, unless that is -1. */
  function MaxLengthProblems(v: string, f: FieldDescription, field: int): seq<TableProblem> {
    if f.maxLength != -1 && Utf16Length(Trim(v)) > f.maxLength as int then [TableProblem(Error, FieldValueTooLong, field)] else []
  }

  /** The character-table overlap check (issue 56): never fatal. */
  function ByteOverlapProblems(fields: seq<FieldDescription>, i: nat, checkFieldFormat: bool): seq<TableProblem>
    requires i < |fields|
  {
    if checkFieldFormat && i + 1 < |fields| && EndOffset(fields[i]) > fields[i + 1].offset
    then [TableProblem(Error, FieldValueOverlap, i + 1)] else []
  }

  datatype Layout = Layout(problems: seq<TableProblem>, fatal: bool)

  /**
   * The bit-field and general overlap checks against the next field (issues 56, 209
   * and 257); a bit overlap is reported at actualFieldNumber. Both set fatalError.
   */
  function LayoutCheck(fields: seq<FieldDescription>, i: nat, afn: int): Layout
    requires i < |fields|
  {
    if i + 1 >= |fields| then Layout([], false)
    else
      var f, next := fields[i], fields[i + 1];
      if IsBitField(f) then
        if next.startBit > 1 && f.stopBit >= next.startBit then Layout([TableProblem(Error, FieldValueOverlap, afn)], true)
        else Layout([], false)
      else if f.offset > next.offset || EndOffset(f) > next.offset then Layout([TableProblem(Error, FieldValueOverlap, i + 1)], true)
      else Layout([], false)
  }

  /** DATA_TYPE_MATCH (Debug) or DATA_TYPE_MISMATCH (Error) for a value checkType is given. */
  function TypeProblem(value: string, t: FieldType, o: TypeOracles, field: int): TableProblem {
    if CheckType(value, t, o) == TypeOk then TableProblem(Debug, FieldValueDataTypeMatch, field)
    else TableProblem(Error, FieldValueDataTypeMismatch, field)
  }

  /**
   * The format check of a non-blank value: validation_format for a fixed-width
   * record, field_format for a delimited one (CCB-214), and only when the
   * format is non-empty and format checking is on.
   */
  function FormatStep(kind: RecordKind, v: string, f: FieldDescription, field: int, checkFieldFormat: bool): Emission {
    if !checkFieldFormat then Emission([], false)
    else if kind == Fixed && f.validationFormat != [] then FormatEmission(v, f.validationFormat, field)
    else if kind == Delimited && f.fieldFormat != [] then FormatEmission(v, f.fieldFormat, field)
    else Emission([], false)
  }

  /**
   * The checks of a value with content, from their separate outcomes: the type
   * problem, then the format check, then (when a bound is declared and the
   * format check did not throw) the min/max check.
   */
  function Checked(typed: TableProblem, format: Emission, hasBounds: bool, range: Emission): Emission {
    if format.threw then Emission([typed] + format.problems, true)
    else if hasBounds then Emission([typed] + format.problems + range.problems, range.threw)
    else Emission([typed] + format.problems, false)
  }

  /**
   * Blank handling, then the type, format and min/max checks (section 4C.1 of the
   * PDS Standards Reference admits empty delimited fields and space-padded fixed ones).
   */
  function ContentEmission(kind: RecordKind, v: string, f: FieldDescription, field: int,
                           checkFieldFormat: bool, o: Collaborators): Emission {
    var t := Trim(v);
    if v == [] || (t == [] && kind == Fixed) then Emission([TableProblem(Debug, BlankFieldValue, field)], false)
    else if t != [] then
      Checked(TypeProblem(t, f.fieldType, o.types, field), FormatStep(kind, v, f, field, checkFieldFormat),
              f.minimum.Some? || f.maximum.Some?, MinMaxEmission(t, f.minimum, f.maximum, field, f.fieldType, o.numbers))
    else if CheckType(v, f.fieldType, o.types) == TypeOk then Emission([TableProblem(Debug, BlankFieldValue, field)], false)
    else Emission([TableProblem(Error, FieldValueDataTypeMismatch, field)], false)
  }

  /** What a field adds, whether it sets fatalError, and actualFieldNumber afterwards. */
  datatype Step = Step(problems: seq<TableProblem>, fatal: bool, afn: int)

  function BadRead(field: int): TableProblem { TableProblem(Error, BadFieldRead, field) }

  /**
   * The body of the loop for field i. An exception anywhere in it (a field
   * that cannot be read, a lone double quote, a format width that overflows an
   * int, a number createDouble refuses) ends the body with BAD_FIELD_READ and
   * sets fatalError; what was appended before stays.
   */
  function FieldStep(r: TableRecord, fields: seq<FieldDescription>, i: nat, afn: int,
                     checkFieldFormat: bool, o: Collaborators): Step
    requires i < |fields|
  {
    match FieldString(r, i)
    case None => Step([BadRead(i + 1)], true, afn)
    case Some(v) =>
      if IsLoneQuote(v) then Step([BadRead(i + 1)], true, afn)
      else
        var afn' := NextActualField(fields, i, afn);
        ReadStep(QuoteProblems(v, i + 1) + MaxLengthProblems(v, fields[i], i + 1) + ByteOverlapProblems(fields, i, checkFieldFormat),
                 LayoutCheck(fields, i, afn'), ContentEmission(r.kind, v, fields[i], i + 1, checkFieldFormat, o), i + 1, afn')
  }

  /** INVALID_FIELD_VALUE for an embedded double quote. */
  function QuoteProblems(v: string, field: int): seq<TableProblem> {
    if HasEmbeddedQuote(v) then [TableProblem(Error, InvalidFieldValue, field)] else []
  }

  /** A field that was read: its checks in order, and BAD_FIELD_READ when the content checks threw. */
  function ReadStep(checks: seq<TableProblem>, layout: Layout, content: Emission, field: int, afn: int): Step {
    Step(checks + layout.problems + content.problems + (if content.threw then [BadRead(field)] else []),
         layout.fatal || content.threw, afn)
  }

  /** The body of the loop as a value: the step for field i from actualFieldNumber afn. */
  function Body(r: TableRecord, fields: seq<FieldDescription>, checkFieldFormat: bool, o: Collaborators): (nat, int) -> Step {
    (i: nat, afn: int) => if i < |fields| then FieldStep(r, fields, i, afn, checkFieldFormat, o) else Step([], false, afn)
  }

  lemma BodyIsFieldStep(r: TableRecord, fields: seq<FieldDescription>, checkFieldFormat: bool, o: Collaborators, i: nat, afn: int)
    requires i < |fields|
    ensures Body(r, fields, checkFieldFormat, o)(i, afn) == FieldStep(r, fields, i, afn, checkFieldFormat, o)
  {
  }

  /** The first n iterations of a loop body, from fatalError false and actualFieldNumber 1. */
  function Loop(body: (nat, int) -> Step, n: nat): Step {
    if n == 0 then Step([], false, 1)
    else
      var before := Loop(body, n - 1);
      var s := body(n - 1, before.afn);
      Step(before.problems + s.problems, before.fatal || s.fatal, s.afn)
  }

  /** The loop over the first n fields. */
  function Validation(r: TableRecord, fields: seq<FieldDescription>, checkFieldFormat: bool, o: Collaborators, n: nat): Step {
    Loop(Body(r, fields, checkFieldFormat, o), n)
  }

  /** The whole record. FieldContentFatalException is thrown after the loop exactly when fatal holds. */
  function ValidateRecord(r: TableRecord, fields: seq<FieldDescription>, checkFieldFormat: bool, o: Collaborators): Step {
    Validation(r, fields, checkFieldFormat, o, |fields|)
  }
  /** One more field appends its step to the validation of the fields before it. */
  lemma ValidationNext(r: TableRecord, fields: seq<FieldDescription>, checkFieldFormat: bool, o: Collaborators, n: nat)
    requires n < |fields|
    ensures var done := Validation(r, fields, checkFieldFormat, o, n);
      var step := FieldStep(r, fields, n, done.afn, checkFieldFormat, o);
      Validation(r, fields, checkFieldFormat, o, n + 1) == Step(done.problems + step.problems, done.fatal || step.fatal, step.afn)
  {
    BodyIsFieldStep(r, fields, checkFieldFormat, o, n, Validation(r, fields, checkFieldFormat, o, n).afn);
  }


  // ---------------------------------------------------------------------
  // Properties of one field

  /**
   * max_length counts UTF-16 units: three U+1F600 chars are six of them, so they
   * exceed a maximum of 4 although the value has three chars.
   */
  lemma SupplementaryValueExceedsMaxLength(f: FieldDescription, field: int)
    requires f.maxLength == 4
    ensures MaxLengthProblems("\U{1F600}\U{1F600}\U{1F600}", f, field) == [TableProblem(Error, FieldValueTooLong, field)]
  {
    SupplementaryCountsTwice();
    TrimOfUntrimmable("\U{1F600}\U{1F600}\U{1F600}");
  }

  /** An empty value, or a blank one in a fixed-width record, is only reported blank: no type, format or range check. */
  lemma BlankValueOnlyBlank(kind: RecordKind, v: string, f: FieldDescription, field: int, checkFieldFormat: bool, o: Collaborators)
    requires v == [] || (Trim(v) == [] && kind == Fixed)
    ensures ContentEmission(kind, v, f, field, checkFieldFormat, o) == Emission([TableProblem(Debug, BlankFieldValue, field)], false)
  {
  }

  /** A delimited value of whitespace only is type-checked as it is, untrimmed: blank when the type admits it. */
  lemma DelimitedWhitespaceCheckedUntrimmed(v: string, f: FieldDescription, field: int, checkFieldFormat: bool, o: Collaborators)
    requires v != [] && Trim(v) == []
    ensures var e := ContentEmission(Delimited, v, f, field, checkFieldFormat, o);
      && !e.threw && |e.problems| == 1 && e.problems[0].field == field
      && (e.problems[0] == TableProblem(Debug, BlankFieldValue, field) <==> CheckType(v, f.fieldType, o.types) == TypeOk)
      && (e.problems[0] == TableProblem(Error, FieldValueDataTypeMismatch, field) <==> CheckType(v, f.fieldType, o.types) != TypeOk)
  {
  }

  /** What the format and min/max checks of a non-blank value report: problems at the field, never a type or blank one. */
  predicate ContentChecks(ps: seq<TableProblem>, field: int) {
    forall p | p in ps ::
      p.field == field && p.kind != FieldValueDataTypeMatch && p.kind != FieldValueDataTypeMismatch && p.kind != BlankFieldValue
  }

  /** The type problem comes first; every other problem comes from the format or the min/max check. */
  lemma CheckedShape(typed: TableProblem, format: Emission, hasBounds: bool, range: Emission, field: int)
    requires ContentChecks(format.problems, field) && ContentChecks(range.problems, field)
    ensures var ps := Checked(typed, format, hasBounds, range).problems;
      ps != [] && ps[0] == typed && ContentChecks(ps[1..], field)
  {
    var ps := Checked(typed, format, hasBounds, range).problems;
    if !format.threw && hasBounds {
      assert ps[1..] == format.problems + range.problems;
    } else {
      assert ps[1..] == format.problems;
    }
  }

  /** The format check of a value with content reports at the field and never a type or blank kind. */
  lemma FormatStepChecks(kind: RecordKind, v: string, f: FieldDescription, field: int, checkFieldFormat: bool)
    ensures ContentChecks(FormatStep(kind, v, f, field, checkFieldFormat).problems, field)
  {
    if checkFieldFormat && kind == Fixed && f.validationFormat != [] {
      FormatReportsAtField(v, f.validationFormat, field);
    } else if checkFieldFormat && kind == Delimited && f.fieldFormat != [] {
      FormatReportsAtField(v, f.fieldFormat, field);
    }
  }

  lemma FormatReportsAtField(v: string, format: string, field: int)
    ensures ContentChecks(FormatEmission(v, format, field).problems, field)
  {
    FormatProblemsAtField(v, format, field);
    FormatProblemKinds(v, format, field);
  }

  /** So does the min/max check. */
  lemma RangeStepChecks(v: string, f: FieldDescription, field: int, o: Collaborators)
    ensures ContentChecks(MinMaxEmission(Trim(v), f.minimum, f.maximum, field, f.fieldType, o.numbers).problems, field)
  {
    RangeProblemKinds(Trim(v), f.minimum, f.maximum, field, f.fieldType, o.numbers);
  }

  /** A value with content: the type problem first, then the format and min/max problems. */
  lemma ContentShape(kind: RecordKind, v: string, f: FieldDescription, field: int, checkFieldFormat: bool, o: Collaborators)
    requires Trim(v) != []
    ensures var ps := ContentEmission(kind, v, f, field, checkFieldFormat, o).problems;
      ps != [] && ps[0] == TypeProblem(Trim(v), f.fieldType, o.types, field) && ContentChecks(ps[1..], field)
  {
    var t := Trim(v);
    var format := FormatStep(kind, v, f, field, checkFieldFormat);
    var range := MinMaxEmission(t, f.minimum, f.maximum, field, f.fieldType, o.numbers);
    var typed := TypeProblem(t, f.fieldType, o.types, field);
    FormatStepChecks(kind, v, f, field, checkFieldFormat);
    RangeStepChecks(v, f, field, o);
    CheckedShape(typed, format, f.minimum.Some? || f.maximum.Some?, range, field);
    assert ContentEmission(kind, v, f, field, checkFieldFormat, o).problems
      == Checked(typed, format, f.minimum.Some? || f.maximum.Some?, range).problems;
  }

  /** Every problem of the content checks is reported at the field. */
  lemma ContentAtField(kind: RecordKind, v: string, f: FieldDescription, field: int, checkFieldFormat: bool, o: Collaborators)
    ensures forall p | p in ContentEmission(kind, v, f, field, checkFieldFormat, o).problems :: p.field == field
  {
    if Trim(v) != [] {
      ContentShape(kind, v, f, field, checkFieldFormat, o);
      var ps := ContentEmission(kind, v, f, field, checkFieldFormat, o).problems;
      forall p | p in ps ensures p.field == field {
        if p != ps[0] {
          var j :| 0 <= j < |ps| && ps[j] == p;
          assert p in ps[1..] by { assert ps[1..][j - 1] == p; }
        }
      }
    }
  }

  lemma ContentChecksCounts(ps: seq<TableProblem>, field: int)
    requires ContentChecks(ps, field)
    ensures !HasKind(ps, FieldValueDataTypeMatch) && !HasKind(ps, FieldValueDataTypeMismatch) && !HasKind(ps, BlankFieldValue)
  {
    forall i | 0 <= i < |ps|
      ensures ps[i].kind != FieldValueDataTypeMatch && ps[i].kind != FieldValueDataTypeMismatch && ps[i].kind != BlankFieldValue
    {
      assert ps[i] in ps;
    }
  }

  /**
   * The type problem of a value with content: DATA_TYPE_MATCH (Debug) when checkType
   * accepts the trimmed value and DATA_TYPE_MISMATCH (Error) otherwise.
   */
  lemma TypeProblemVerdict(t: string, ft: FieldType, types: TypeOracles, field: int)
    ensures var p := TypeProblem(t, ft, types, field);
      && p.field == field
      && (p.kind == FieldValueDataTypeMatch <==> CheckType(t, ft, types) == TypeOk)
      && (p.kind == FieldValueDataTypeMismatch <==> CheckType(t, ft, types) != TypeOk)
      && (p.severity == Debug <==> p.kind == FieldValueDataTypeMatch)
      && p.kind != BlankFieldValue
  {
  }

  /**
   * A value with content is type-checked exactly once, on its trimmed form:
   * the first problem is DATA_TYPE_MATCH (Debug) when checkType accepts the
   * trimmed value and DATA_TYPE_MISMATCH (Error) otherwise, and it is not blank.
   */
  lemma ContentTypeCheckedOnce(kind: RecordKind, v: string, f: FieldDescription, field: int, checkFieldFormat: bool, o: Collaborators)
    requires Trim(v) != []
    ensures var ps := ContentEmission(kind, v, f, field, checkFieldFormat, o).problems;
      && ps != [] && ps[0].field == field
      && (ps[0].kind == FieldValueDataTypeMatch <==> CheckType(Trim(v), f.fieldType, o.types) == TypeOk)
      && (ps[0].kind == FieldValueDataTypeMismatch <==> CheckType(Trim(v), f.fieldType, o.types) != TypeOk)
      && (ps[0].severity == Debug <==> ps[0].kind == FieldValueDataTypeMatch)
      && CountKind(ps, FieldValueDataTypeMatch) + CountKind(ps, FieldValueDataTypeMismatch) == 1
      && !HasKind(ps, BlankFieldValue)
  {
    TypeProblemVerdict(Trim(v), f.fieldType, o.types, field);
    ContentShape(kind, v, f, field, checkFieldFormat, o);
    TypeFirstCounts(ContentEmission(kind, v, f, field, checkFieldFormat, o).problems, field);
  }

  /** A type problem followed by format and min/max problems holds exactly one type problem and no blank one. */
  lemma TypeFirstCounts(ps: seq<TableProblem>, field: int)
    requires ps != [] && (ps[0].kind == FieldValueDataTypeMatch || ps[0].kind == FieldValueDataTypeMismatch)
    requires ContentChecks(ps[1..], field)
    ensures CountKind(ps, FieldValueDataTypeMatch) + CountKind(ps, FieldValueDataTypeMismatch) == 1
    ensures !HasKind(ps, BlankFieldValue)
  {
    var rest := ps[1..];
    ContentChecksCounts(rest, field);
    assert ps == [ps[0]] + rest;
    CountKindAppend([ps[0]], rest, FieldValueDataTypeMatch);
    CountKindAppend([ps[0]], rest, FieldValueDataTypeMismatch);
    HasKindAppend([ps[0]], rest, BlankFieldValue);
  }

  /** The bit-field overlap check (issues 56 and 209). */
  predicate BitOverlap(fields: seq<FieldDescription>, i: nat)
    requires i < |fields|
  {
    i + 1 < |fields| && IsBitField(fields[i]) && fields[i + 1].startBit > 1 && fields[i].stopBit >= fields[i + 1].startBit
  }

  /** The general overlap check of a field that is not a bit field (issue 257). */
  predicate ByteOverlap(fields: seq<FieldDescription>, i: nat)
    requires i < |fields|
  {
    i + 1 < |fields| && !IsBitField(fields[i])
    && (fields[i].offset > fields[i + 1].offset || EndOffset(fields[i]) > fields[i + 1].offset)
  }

  /**
   * For a bit field the byte offsets are never compared: the layout outcome is
   * the same whatever the two offsets are, and it is fatal exactly when the stop
   * bit reaches the next field's start bit (itself above 1); the overlap is
   * reported at actualFieldNumber.
   */
  lemma BitFieldSkipsByteCheck(fields: seq<FieldDescription>, i: nat, afn: int, x: Int32, y: Int32)
    requires i + 1 < |fields| && IsBitField(fields[i])
    ensures var moved := fields[i := fields[i].(offset := x)][i + 1 := fields[i + 1].(offset := y)];
      LayoutCheck(moved, i, afn) == LayoutCheck(fields, i, afn)
    ensures LayoutCheck(fields, i, afn).fatal <==> fields[i + 1].startBit > 1 && fields[i].stopBit >= fields[i + 1].startBit
    ensures forall p | p in LayoutCheck(fields, i, afn).problems :: p == TableProblem(Error, FieldValueOverlap, afn)
  {
    var moved := fields[i := fields[i].(offset := x)][i + 1 := fields[i + 1].(offset := y)];
    assert moved[i].stopBit == fields[i].stopBit && moved[i].length == fields[i].length;
    assert moved[i + 1].startBit == fields[i + 1].startBit;
  }

  /**
   * With format checking on, a field that is not a bit field and ends past the
   * start of the next field is reported twice as an overlap at its own index:
   * once by the character-table check and once, fatally, by the general check.
   */
  lemma TwoOverlapsForOnePair(r: TableRecord, fields: seq<FieldDescription>, i: nat, afn: int, o: Collaborators, v: string)
    requires i + 1 < |fields| && !IsBitField(fields[i]) && EndOffset(fields[i]) > fields[i + 1].offset
    requires FieldString(r, i) == Some(v) && !IsLoneQuote(v)
    ensures var s := FieldStep(r, fields, i, afn, true, o);
      s.fatal && CountKind(s.problems, FieldValueOverlap) >= 2
  {
    var s := FieldStep(r, fields, i, afn, true, o);
    var a := QuoteProblems(v, i + 1) + MaxLengthProblems(v, fields[i], i + 1);
    var overlap := TableProblem(Error, FieldValueOverlap, i + 1);
    var content := ContentEmission(r.kind, v, fields[i], i + 1, true, o);
    var tail := content.problems + (if content.threw then [BadRead(i + 1)] else []);
    assert ByteOverlapProblems(fields, i, true) == [overlap];
    assert LayoutCheck(fields, i, NextActualField(fields, i, afn)) == Layout([overlap], true);
    assert s.problems == a + [overlap] + [overlap] + tail;
    CountKindAppend(a + [overlap] + [overlap], tail, FieldValueOverlap);
    CountKindAppend(a + [overlap], [overlap], FieldValueOverlap);
    CountKindAppend(a, [overlap], FieldValueOverlap);
  }

  /** offset > next.offset adds nothing to the general check when offset + length does not overflow and length >= 0. */
  lemma OffsetComparisonSubsumed(f: FieldDescription, next: FieldDescription)
    requires f.length >= 0 && f.offset as int + f.length as int <= 0x7FFF_FFFF
    requires f.offset > next.offset
    ensures EndOffset(f) > next.offset
  {
  }

  /** When offset + length wraps around, only offset > next.offset catches the overlap. */
  lemma OffsetComparisonNeededOnWrap()
    ensures var f := FieldDescription(0x7FFF_FFFF, 1, 0, 0, Unchecked, -1, None, None, [], []);
      var next := FieldDescription(0, 1, 0, 0, Unchecked, -1, None, None, [], []);
      EndOffset(f) < next.offset && ByteOverlap([f, next], 0)
  {
    assert Wrap32(0x8000_0000) == -0x8000_0000;
  }

  /** The conditions that set fatalError while field i is checked. */
  predicate FieldFatal(r: TableRecord, fields: seq<FieldDescription>, i: nat, checkFieldFormat: bool, o: Collaborators)
    requires i < |fields|
  {
    match FieldString(r, i)
    case None => true
    case Some(v) =>
      IsLoneQuote(v) || BitOverlap(fields, i) || ByteOverlap(fields, i)
      || ContentEmission(r.kind, v, fields[i], i + 1, checkFieldFormat, o).threw
  }

  /** A field sets fatalError exactly under those conditions, whatever actualFieldNumber is. */
  lemma StepFatal(r: TableRecord, fields: seq<FieldDescription>, i: nat, afn: int, checkFieldFormat: bool, o: Collaborators)
    requires i < |fields|
    ensures FieldStep(r, fields, i, afn, checkFieldFormat, o).fatal <==> FieldFatal(r, fields, i, checkFieldFormat, o)
  {
  }

  /** Every problem of field i is reported at index i + 1, except a bit overlap, reported at actualFieldNumber. */
  lemma StepFields(r: TableRecord, fields: seq<FieldDescription>, i: nat, afn: int, checkFieldFormat: bool, o: Collaborators)
    requires i < |fields|
    ensures var s := FieldStep(r, fields, i, afn, checkFieldFormat, o);
      forall p | p in s.problems :: p.field == i + 1 || (p.field == s.afn && p.kind == FieldValueOverlap)
  {
    match FieldString(r, i)
    case None =>
    case Some(v) =>
      if !IsLoneQuote(v) {
        var afn' := NextActualField(fields, i, afn);
        var checks := QuoteProblems(v, i + 1) + MaxLengthProblems(v, fields[i], i + 1) + ByteOverlapProblems(fields, i, checkFieldFormat);
        var layout := LayoutCheck(fields, i, afn');
        var content := ContentEmission(r.kind, v, fields[i], i + 1, checkFieldFormat, o);
        ContentAtField(r.kind, v, fields[i], i + 1, checkFieldFormat, o);
        ChecksAtField(v, fields, i, checkFieldFormat);
        LayoutAtField(fields, i, afn');
        ReadStepFields(checks, layout, content, i + 1, afn');
      }
  }

  /** The quote, maximum-length and character-table overlap checks report at the field. */
  lemma ChecksAtField(v: string, fields: seq<FieldDescription>, i: nat, checkFieldFormat: bool)
    requires i < |fields|
    ensures forall p | p in QuoteProblems(v, i + 1) + MaxLengthProblems(v, fields[i], i + 1) + ByteOverlapProblems(fields, i, checkFieldFormat) ::
      p.field == i + 1
  {
  }

  /** The overlap checks report at the field, or a bit overlap at actualFieldNumber. */
  lemma LayoutAtField(fields: seq<FieldDescription>, i: nat, afn: int)
    requires i < |fields|
    ensures forall p | p in LayoutCheck(fields, i, afn).problems :: p.field == i + 1 || (p.field == afn && p.kind == FieldValueOverlap)
  {
  }

  lemma ReadStepFields(checks: seq<TableProblem>, layout: Layout, content: Emission, field: int, afn: int)
    requires forall p | p in checks :: p.field == field
    requires forall p | p in layout.problems :: p.field == field || (p.field == afn && p.kind == FieldValueOverlap)
    requires forall p | p in content.problems :: p.field == field
    ensures forall p | p in ReadStep(checks, layout, content, field, afn).problems ::
      p.field == field || (p.field == afn && p.kind == FieldValueOverlap)
  {
  }

  /** How one field moves actualFieldNumber: by one exactly when it advances it. */
  lemma StepAfn(r: TableRecord, fields: seq<FieldDescription>, i: nat, afn: int, checkFieldFormat: bool, o: Collaborators)
    requires i < |fields|
    ensures FieldStep(r, fields, i, afn, checkFieldFormat, o).afn == afn + (if Advances(r, fields, i) then 1 else 0)
  {
  }

  /** Field i was read (no exception before the issue-209 counter) and the next field starts at another offset. */
  predicate Advances(r: TableRecord, fields: seq<FieldDescription>, i: nat)
    requires i < |fields|
  {
    match FieldString(r, i)
    case None => false
    case Some(v) => !IsLoneQuote(v) && i + 1 < |fields| && fields[i + 1].offset != fields[i].offset
  }

  /** How many of the first n fields advance actualFieldNumber. */
  function OffsetChanges(r: TableRecord, fields: seq<FieldDescription>, n: nat): (c: nat)
    requires n <= |fields|
    ensures c <= n
    ensures 0 < |fields| ==> c < |fields|
  {
    if n == 0 then 0 else OffsetChanges(r, fields, n - 1) + (if Advances(r, fields, n - 1) then 1 else 0)
  }

  // ---------------------------------------------------------------------
  // Properties of the loop, whatever its body

  /** The listener only grows: what iteration i reported is in the problems after any later iteration. */
  lemma {:induction false} LoopKeeps(body: (nat, int) -> Step, i: nat, n: nat, p: TableProblem)
    requires i < n && p in body(i, Loop(body, i).afn).problems
    ensures p in Loop(body, n).problems
  {
    if i < n - 1 {
      LoopKeeps(body, i, n - 1, p);
    }
  }

  /** The flag is set after n iterations exactly when one of them set it; none clears it or stops the loop. */
  lemma {:induction false} LoopFatal(body: (nat, int) -> Step, n: nat, fatal: nat -> bool)
    requires forall i, a | 0 <= i < n :: body(i, a).fatal == fatal(i)
    ensures Loop(body, n).fatal <==> exists i | 0 <= i < n :: fatal(i)
  {
    if n > 0 {
      LoopFatal(body, n - 1, fatal);
      assert body(n - 1, Loop(body, n - 1).afn).fatal == fatal(n - 1);
    }
  }

  /** inc(0) + ... + inc(n - 1). */
  function SumTo(inc: nat -> nat, n: nat): nat {
    if n == 0 then 0 else SumTo(inc, n - 1) + inc(n - 1)
  }

  /** The counter after n iterations, when iteration i adds inc(i) to it. */
  lemma {:induction false} LoopCounter(body: (nat, int) -> Step, n: nat, inc: nat -> nat)
    requires forall i, a | 0 <= i < n :: body(i, a).afn == a + inc(i)
    ensures Loop(body, n).afn == 1 + SumTo(inc, n)
  {
    if n > 0 {
      LoopCounter(body, n - 1, inc);
      assert body(n - 1, Loop(body, n - 1).afn).afn == Loop(body, n - 1).afn + inc(n - 1);
    }
  }

  /**
   * Every problem names a field in 1..hi when each iteration i, started from a
   * counter in 1..i + 1, reports fields in that range and adds at most one to the counter.
   */
  lemma {:induction false} LoopFieldsBounded(body: (nat, int) -> Step, n: nat, hi: int)
    requires forall i, a | 0 <= i < n && 1 <= a <= i + 1 ::
      a <= body(i, a).afn <= a + 1 && forall p | p in body(i, a).problems :: 1 <= p.field <= hi
    ensures 1 <= Loop(body, n).afn <= n + 1
    ensures forall p | p in Loop(body, n).problems :: 1 <= p.field <= hi
  {
    if n > 0 {
      LoopFieldsBounded(body, n - 1, hi);
      var before := Loop(body, n - 1);
      assert Loop(body, n).problems == before.problems + body(n - 1, before.afn).problems;
    }
  }

  // ---------------------------------------------------------------------
  // Properties of the whole record

  /** Whether iteration i of the loop is fatal does not depend on actualFieldNumber. */
  lemma BodyFatal(r: TableRecord, fields: seq<FieldDescription>, checkFieldFormat: bool, o: Collaborators)
    ensures forall i, a | 0 <= i < |fields| ::
      Body(r, fields, checkFieldFormat, o)(i, a).fatal == FieldFatal(r, fields, i, checkFieldFormat, o)
  {
    forall i, a | 0 <= i < |fields|
      ensures Body(r, fields, checkFieldFormat, o)(i, a).fatal == FieldFatal(r, fields, i, checkFieldFormat, o)
    {
      StepFatal(r, fields, i, a, checkFieldFormat, o);
    }
  }

  /** FieldContentFatalException is thrown exactly when some field of the record met a fatal condition. */
  lemma RecordFatal(r: TableRecord, fields: seq<FieldDescription>, checkFieldFormat: bool, o: Collaborators)
    ensures ValidateRecord(r, fields, checkFieldFormat, o).fatal
      <==> exists i | 0 <= i < |fields| :: FieldFatal(r, fields, i, checkFieldFormat, o)
  {
    var fatal := (i: nat) => i < |fields| && FieldFatal(r, fields, i, checkFieldFormat, o);
    BodyFatal(r, fields, checkFieldFormat, o);
    LoopFatal(Body(r, fields, checkFieldFormat, o), |fields|, fatal);
    if i :| 0 <= i < |fields| && FieldFatal(r, fields, i, checkFieldFormat, o) {
      assert fatal(i);
    }
  }

  /** 1 for a field that advances actualFieldNumber, 0 for the others. */
  function AdvancesAt(r: TableRecord, fields: seq<FieldDescription>): nat -> nat {
    (i: nat) => if i < |fields| && Advances(r, fields, i) then 1 else 0
  }

  lemma {:induction false} OffsetChangesSum(r: TableRecord, fields: seq<FieldDescription>, n: nat)
    requires n <= |fields|
    ensures OffsetChanges(r, fields, n) == SumTo(AdvancesAt(r, fields), n)
  {
    if n > 0 {
      OffsetChangesSum(r, fields, n - 1);
    }
  }

  /** Iteration i adds one to actualFieldNumber exactly when field i advances it. */
  lemma BodyAfn(r: TableRecord, fields: seq<FieldDescription>, checkFieldFormat: bool, o: Collaborators)
    ensures forall i, a | 0 <= i < |fields| ::
      Body(r, fields, checkFieldFormat, o)(i, a).afn == a + AdvancesAt(r, fields)(i)
  {
    forall i, a | 0 <= i < |fields|
      ensures Body(r, fields, checkFieldFormat, o)(i, a).afn == a + AdvancesAt(r, fields)(i)
    {
      StepAfn(r, fields, i, a, checkFieldFormat, o);
    }
  }

  /** actualFieldNumber starts at 1 and grows by one for each field that advances it, and only then. */
  lemma ActualFieldNumberCounts(r: TableRecord, fields: seq<FieldDescription>, checkFieldFormat: bool, o: Collaborators, n: nat)
    requires n <= |fields|
    ensures Validation(r, fields, checkFieldFormat, o, n).afn == 1 + OffsetChanges(r, fields, n)
  {
    BodyAfn(r, fields, checkFieldFormat, o);
    LoopCounter(Body(r, fields, checkFieldFormat, o), n, AdvancesAt(r, fields));
    OffsetChangesSum(r, fields, n);
  }

  /** One field, started from a counter in 1..i + 1, reports fields in 1..fields.length and adds at most one. */
  lemma StepFieldsBounded(r: TableRecord, fields: seq<FieldDescription>, i: nat, a: int, checkFieldFormat: bool, o: Collaborators)
    requires i < |fields| && 1 <= a <= i + 1
    ensures var s := FieldStep(r, fields, i, a, checkFieldFormat, o);
      a <= s.afn <= a + 1 && forall p | p in s.problems :: 1 <= p.field <= |fields|
  {
    StepFields(r, fields, i, a, checkFieldFormat, o);
    StepAfn(r, fields, i, a, checkFieldFormat, o);
  }

  /** Every problem of the record names a field that exists: 1 <= field <= fields.length. */
  lemma ProblemFieldsInRange(r: TableRecord, fields: seq<FieldDescription>, checkFieldFormat: bool, o: Collaborators)
    ensures forall p | p in ValidateRecord(r, fields, checkFieldFormat, o).problems :: 1 <= p.field <= |fields|
  {
    var body := Body(r, fields, checkFieldFormat, o);
    forall i, a | 0 <= i < |fields| && 1 <= a <= i + 1
      ensures a <= body(i, a).afn <= a + 1 && forall p | p in body(i, a).problems :: 1 <= p.field <= |fields|
    {
      StepFieldsBounded(r, fields, i, a, checkFieldFormat, o);
    }
    LoopFieldsBounded(body, |fields|, |fields|);
  }

  /** A field that can be read and has content reports its type problem, whatever actualFieldNumber is. */
  lemma StepTypeChecked(r: TableRecord, fields: seq<FieldDescription>, i: nat, a: int, checkFieldFormat: bool, o: Collaborators, v: string)
    requires i < |fields| && FieldString(r, i) == Some(v) && !IsLoneQuote(v) && Trim(v) != []
    ensures TypeProblem(Trim(v), fields[i].fieldType, o.types, i + 1) in FieldStep(r, fields, i, a, checkFieldFormat, o).problems
  {
    var f := fields[i];
    ContentShape(r.kind, v, f, i + 1, checkFieldFormat, o);
    var content := ContentEmission(r.kind, v, f, i + 1, checkFieldFormat, o);
    assert content.problems[0] in content.problems;
    var afn' := NextActualField(fields, i, a);
    var checks := QuoteProblems(v, i + 1) + MaxLengthProblems(v, f, i + 1) + ByteOverlapProblems(fields, i, checkFieldFormat);
    assert FieldStep(r, fields, i, a, checkFieldFormat, o) == ReadStep(checks, LayoutCheck(fields, i, afn'), content, i + 1, afn');
  }

  /**
   * Every field that can be read and has content is type-checked on its trimmed
   * value, whether or not an earlier field was fatal.
   */
  lemma TypeCheckedEveryField(r: TableRecord, fields: seq<FieldDescription>, checkFieldFormat: bool, o: Collaborators, i: nat, v: string)
    requires i < |fields| && FieldString(r, i) == Some(v) && !IsLoneQuote(v) && Trim(v) != []
    ensures TypeProblem(Trim(v), fields[i].fieldType, o.types, i + 1) in ValidateRecord(r, fields, checkFieldFormat, o).problems
  {
    var body := Body(r, fields, checkFieldFormat, o);
    StepTypeChecked(r, fields, i, Loop(body, i).afn, checkFieldFormat, o, v);
    LoopKeeps(body, i, |fields|, TypeProblem(Trim(v), fields[i].fieldType, o.types, i + 1));
  }
}
