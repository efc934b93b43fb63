/**
 * checkMinMax of FieldValueValidator, as a specification: a value is compared
 * with the declared minimum and maximum after the leading-zero correction of
 * ASCII_Real, ASCII_Integer and ASCII_NonNegative_Integer values. The method
 * that emits these problems one by one is FieldValueValidator.CheckMinMax.
 */
module FieldRange {
  import opened Wrappers
  import opened JavaText
  import opened FieldTypes
  import opened Problems

  /**
   * A Java double: a finite value (its rounding is left to the oracles that
   * produce it), NaN or one of the two infinities. The two zeros are one value,
   * as the comparisons of checkMinMax cannot tell them apart.
   */
  datatype JavaDouble = Finite(r: real) | NaN | PositiveInfinity | NegativeInfinity

  /**
   * The primitive comparison a < b on doubles (a > b is b < a): false whenever
   * either side is NaN, and the infinities lie beyond every finite value.
   */
  predicate Less(a: JavaDouble, b: JavaDouble) {
    if a.Finite? && b.Finite? then a.r < b.r
    else
      || (a.NegativeInfinity? && !b.NaN? && !b.NegativeInfinity?)
      || (b.PositiveInfinity? && !a.NaN? && !a.PositiveInfinity?)
  }

  /**
   * The floating-point library calls, as parameters: Double.parseDouble and
   * NumberUtils.createDouble (None is a NumberFormatException), Double.toString
   * and NumberUtils.isCreatable.
   */
  datatype NumberOracles = NumberOracles(
    parseDouble: string -> Option<JavaDouble>,
    doubleToString: JavaDouble -> string,
    isCreatable: string -> bool,
    createDouble: string -> Option<JavaDouble>)

  /**
   * Less is the order of the reals on finite values, a strict total order on
   * the doubles other than NaN, and NaN is unordered with every double.
   */
  lemma LessIsIeeeOrder(a: JavaDouble, b: JavaDouble, c: JavaDouble)
    ensures a.Finite? && b.Finite? ==> (Less(a, b) <==> a.r < b.r)
    ensures !Less(a, a)
    ensures Less(a, b) ==> !Less(b, a)
    ensures Less(a, b) && Less(b, c) ==> Less(a, c)
    ensures !a.NaN? && !b.NaN? && a != b ==> Less(a, b) || Less(b, a)
    ensures a.NaN? || b.NaN? ==> !Less(a, b) && !Less(b, a)
    ensures !a.NaN? && !a.NegativeInfinity? ==> Less(NegativeInfinity, a)
    ensures !a.NaN? && !a.PositiveInfinity? ==> Less(a, PositiveInfinity)
  {
  }

  /** The types whose values have their leading zeros removed (issue 297). */
  predicate CorrectsLeadingZeros(t: FieldType) {
    t == AsciiReal || t == AsciiInteger || t == AsciiNonNegativeInteger
  }

  predicate HasLeadingZero(v: string) { StartsWith(v, "0") || StartsWith(v, "-0") }

  /**
   * The value checkMinMax goes on with, and issueWithLeadingZerosRemovalFlag:
   * a value with a leading zero is replaced by Double.toString(Double.parseDouble(v)),
   * and the flag records that parseDouble failed.
   */
  datatype Corrected = Corrected(value: string, parseFailed: bool)

  function Correct(value: string, t: FieldType, o: NumberOracles): (c: Corrected)
    ensures c.parseFailed ==> c.value == Trim(value)
    ensures !(CorrectsLeadingZeros(t) && HasLeadingZero(Trim(value))) ==> c == Corrected(Trim(value), false)
  {
    var v := Trim(value);
    if CorrectsLeadingZeros(t) && HasLeadingZero(v) then
      match o.parseDouble(v)
      case None => Corrected(v, true)
      case Some(x) => Corrected(o.doubleToString(x), false)
    else Corrected(v, false)
  }

  /** The problem one declared bound yields for the number n. */
  function BoundProblem(outside: bool, field: int): TableProblem {
    if outside then TableProblem(Error, FieldValueOutOfMinMaxRange, field)
    else TableProblem(Debug, FieldValueInMinMaxRange, field)
  }

  /** The problems of the two bounds, minimum first. */
  function BoundProblems(n: JavaDouble, minimum: Option<JavaDouble>, maximum: Option<JavaDouble>, field: int): seq<TableProblem> {
    (if minimum.Some? then [BoundProblem(Less(n, minimum.value), field)] else [])
    + (if maximum.Some? then [BoundProblem(Less(maximum.value, n), field)] else [])
  }

  /**
   * What checkMinMax(value, minimum, maximum, field, type) emits. The value is
   * converted with createDouble unless the leading-zero correction failed and the
   * value is not creatable, which gives NOT_A_NUMBER; a createDouble failure
   * propagates out of checkMinMax (threw).
   */
  function MinMaxEmission(value: string, minimum: Option<JavaDouble>, maximum: Option<JavaDouble>, field: int,
                          t: FieldType, o: NumberOracles): Emission {
    var c := Correct(value, t, o);
    if !c.parseFailed || o.isCreatable(c.value) then
      match o.createDouble(c.value)
      case None => Emission([], true)
      case Some(n) => Emission(BoundProblems(n, minimum, maximum, field), false)
    else Emission([TableProblem(Error, FieldValueNotANumber, field)], false)
  }

  // ---------------------------------------------------------------------
  // Properties

  /** The number the value is compared with, when the comparison is reached. */
  function ComparedNumber(value: string, t: FieldType, o: NumberOracles): Option<JavaDouble> {
    var c := Correct(value, t, o);
    if !c.parseFailed || o.isCreatable(c.value) then o.createDouble(c.value) else None
  }

  /**
   * Once the value converts to n, each declared bound yields exactly one problem
   * at the field, minimum first: an Error when n lies strictly beyond it under
   * the double comparison, an IN_RANGE Debug otherwise.
   */
  lemma BoundsVerdict(value: string, minimum: Option<JavaDouble>, maximum: Option<JavaDouble>, field: int,
                      t: FieldType, o: NumberOracles)
    requires ComparedNumber(value, t, o).Some?
    ensures var n := ComparedNumber(value, t, o).value;
      var e := MinMaxEmission(value, minimum, maximum, field, t, o);
      && !e.threw
      && |e.problems| == (if minimum.Some? then 1 else 0) + (if maximum.Some? then 1 else 0)
      && (minimum.Some? ==>
            (e.problems[0].field == field
             && (e.problems[0].severity == Error <==> Less(n, minimum.value))
             && (e.problems[0].kind == FieldValueOutOfMinMaxRange <==> Less(n, minimum.value))
             && (e.problems[0].kind == FieldValueInMinMaxRange <==> !Less(n, minimum.value))))
      && (maximum.Some? ==>
            (var q := e.problems[|e.problems| - 1];
             q.field == field
             && (q.severity == Error <==> Less(maximum.value, n))
             && (q.kind == FieldValueOutOfMinMaxRange <==> Less(maximum.value, n))
             && (q.kind == FieldValueInMinMaxRange <==> !Less(maximum.value, n))))
  {
  }

  /** A value equal to a declared bound is never reported out of range. */
  lemma EqualToBoundIsInRange(value: string, minimum: Option<JavaDouble>, maximum: Option<JavaDouble>, field: int,
                              t: FieldType, o: NumberOracles)
    requires ComparedNumber(value, t, o).Some?
    requires (minimum.Some? && minimum.value == ComparedNumber(value, t, o).value)
          || (maximum.Some? && maximum.value == ComparedNumber(value, t, o).value)
    ensures var n := ComparedNumber(value, t, o).value;
      var ps := MinMaxEmission(value, minimum, maximum, field, t, o).problems;
      && (minimum.Some? && minimum.value == n ==> ps[0] == TableProblem(Debug, FieldValueInMinMaxRange, field))
      && (maximum.Some? && maximum.value == n ==> ps[|ps| - 1] == TableProblem(Debug, FieldValueInMinMaxRange, field))
  {
    BoundsVerdict(value, minimum, maximum, field, t, o);
  }

  /**
   * A value that converts to NaN compares false with every bound, so each
   * declared bound, whatever it is, reports IN_RANGE: a NaN value passes a
   * minimum of 10 and a maximum of 5 alike.
   */
  lemma NaNIsInRange(value: string, minimum: Option<JavaDouble>, maximum: Option<JavaDouble>, field: int,
                     t: FieldType, o: NumberOracles)
    requires ComparedNumber(value, t, o) == Some(NaN)
    ensures MinMaxEmission(value, minimum, maximum, field, t, o).problems
      == (if minimum.Some? then [TableProblem(Debug, FieldValueInMinMaxRange, field)] else [])
       + (if maximum.Some? then [TableProblem(Debug, FieldValueInMinMaxRange, field)] else [])
  {
  }

  /**
   * NOT_A_NUMBER is reported exactly when parseDouble failed on a value with a
   * leading zero and NumberUtils.isCreatable refuses it; it is then the only problem.
   */
  lemma NotANumberExactly(value: string, minimum: Option<JavaDouble>, maximum: Option<JavaDouble>, field: int,
                          t: FieldType, o: NumberOracles)
    ensures var e := MinMaxEmission(value, minimum, maximum, field, t, o);
      (HasKind(e.problems, FieldValueNotANumber)
       <==> (CorrectsLeadingZeros(t) && HasLeadingZero(Trim(value))
             && o.parseDouble(Trim(value)).None? && !o.isCreatable(Trim(value))))
    ensures var e := MinMaxEmission(value, minimum, maximum, field, t, o);
      HasKind(e.problems, FieldValueNotANumber) ==> e == Emission([TableProblem(Error, FieldValueNotANumber, field)], false)
  {
    var e := MinMaxEmission(value, minimum, maximum, field, t, o);
    var c := Correct(value, t, o);
    if !c.parseFailed || o.isCreatable(c.value) {
      match o.createDouble(c.value)
      case None =>
      case Some(n) =>
        assert !HasKind(e.problems, FieldValueNotANumber) by {
          var ps := BoundProblems(n, minimum, maximum, field);
          forall i | 0 <= i < |ps| ensures ps[i].kind != FieldValueNotANumber {
          }
        }
    } else {
      assert e.problems[0].kind == FieldValueNotANumber;
    }
  }

  /** checkMinMax reports nothing but OUT_OF_MIN_MAX_RANGE, IN_MIN_MAX_RANGE and NOT_A_NUMBER. */
  lemma RangeProblemKinds(value: string, minimum: Option<JavaDouble>, maximum: Option<JavaDouble>, field: int,
                          t: FieldType, o: NumberOracles)
    ensures forall p | p in MinMaxEmission(value, minimum, maximum, field, t, o).problems ::
      p.field == field
      && (p.kind == FieldValueOutOfMinMaxRange || p.kind == FieldValueInMinMaxRange || p.kind == FieldValueNotANumber)
  {
  }

  /**
   * A value that is not corrected (no leading zero, or a type that does not
   * correct one) and that createDouble refuses is not routed to NOT_A_NUMBER:
   * checkMinMax throws, and the field is reported as a bad read by the caller.
   */
  lemma UncorrectedNonNumberThrows(value: string, minimum: Option<JavaDouble>, maximum: Option<JavaDouble>, field: int,
                                   t: FieldType, o: NumberOracles)
    requires !(CorrectsLeadingZeros(t) && HasLeadingZero(Trim(value)))
    requires o.createDouble(Trim(value)).None?
    ensures MinMaxEmission(value, minimum, maximum, field, t, o) == Emission([], true)
  {
  }

  /**
   * The leading-zero correction compares the parsed number: when Double.toString
   * of it converts back to the same number, "000810" is measured as 810.
   */
  lemma CorrectedValueComparesParsedNumber(value: string, t: FieldType, o: NumberOracles, x: JavaDouble)
    requires CorrectsLeadingZeros(t) && HasLeadingZero(Trim(value))
    requires o.parseDouble(Trim(value)) == Some(x)
    requires o.createDouble(o.doubleToString(x)) == Some(x)
    ensures ComparedNumber(value, t, o) == Some(x)
  {
  }

  /** checkMinMax trims its argument itself, so trimming beforehand changes nothing. */
  lemma TrimmedArgumentSameEmission(value: string, minimum: Option<JavaDouble>, maximum: Option<JavaDouble>, field: int,
                                    t: FieldType, o: NumberOracles)
    ensures MinMaxEmission(Trim(value), minimum, maximum, field, t, o) == MinMaxEmission(value, minimum, maximum, field, t, o)
  {
    TrimIdempotent(value);
    assert Correct(Trim(value), t, o) == Correct(value, t, o);
  }
}
