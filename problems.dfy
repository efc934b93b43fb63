/** Optional values, standing in for Java's nullable references. */
module Wrappers {
  datatype Option<+T> = None | Some(value: T)
}

/**
 * Problems and the sinks that collect them (ProblemListener for table content,
 * ProblemHandler for labels). A sink only ever grows, in emission order.
 */
module Problems {

  /** ExceptionType: the severity of a problem. */
  datatype Severity = Fatal | Error | Warning | Info | Debug

  /** The ProblemType values the modelled code emits. */
  datatype ProblemType =
    | InvalidFieldValue
    | FieldValueTooLong
    | FieldValueOverlap
    | BlankFieldValue
    | FieldValueDataTypeMatch
    | FieldValueDataTypeMismatch
    | BadFieldRead
    | FieldValueOutOfMinMaxRange
    | FieldValueInMinMaxRange
    | FieldValueNotANumber
    | FieldValueNotRightJustified
    | FieldValueNotLeftJustified
    | FieldValueFormatSpecifierMismatch
    | FieldValueFormatPrecisionMismatch
    | FieldValueFormatMatch
    | SchematronError
    | SchematronWarning
    | SchematronInfo
    | SchemaViolation

  /** A TableContentProblem without its message and record location: the 1-based field index. */
  datatype TableProblem = TableProblem(severity: Severity, kind: ProblemType, field: int)

  /** A ValidationProblem raised while validating a label. */
  datatype LabelProblem = LabelProblem(
    severity: Severity, kind: ProblemType, message: string,
    url: string, line: int, column: int)

  /**
   * What one check appended to the listener before it returned (threw false) or
   * raised an exception that the caller catches (threw true).
   */
  datatype Emission = Emission(problems: seq<TableProblem>, threw: bool)

  predicate HasKind(ps: seq<TableProblem>, k: ProblemType) {
    exists i | 0 <= i < |ps| :: ps[i].kind == k
  }

  lemma HasKindAppend(a: seq<TableProblem>, b: seq<TableProblem>, k: ProblemType)
    ensures HasKind(a + b, k) <==> HasKind(a, k) || HasKind(b, k)
  {
    if HasKind(a + b, k) {
      var i :| 0 <= i < |a + b| && (a + b)[i].kind == k;
      if i >= |a| { assert b[i - |a|] == (a + b)[i]; }
    }
    if HasKind(a, k) {
      var i :| 0 <= i < |a| && a[i].kind == k;
      assert (a + b)[i] == a[i];
    }
    if HasKind(b, k) {
      var i :| 0 <= i < |b| && b[i].kind == k;
      assert (a + b)[|a| + i] == b[i];
    }
  }

  lemma HasKindAppend5(a: seq<TableProblem>, b: seq<TableProblem>, c: seq<TableProblem>,
                       d: seq<TableProblem>, e: seq<TableProblem>, k: ProblemType)
    ensures HasKind(a + b + c + d + e, k)
        <==> HasKind(a, k) || HasKind(b, k) || HasKind(c, k) || HasKind(d, k) || HasKind(e, k)
  {
    HasKindAppend(a + b + c + d, e, k);
    HasKindAppend(a + b + c, d, k);
    HasKindAppend(a + b, c, k);
    HasKindAppend(a, b, k);
  }

  lemma HasKindOptional(b: bool, p: TableProblem, k: ProblemType)
    ensures HasKind(if b then [p] else [], k) <==> b && p.kind == k
  {
    if b && p.kind == k { assert [p][0] == p; }
  }

  /** Number of problems of the given kind. */
  function CountKind(ps: seq<TableProblem>, k: ProblemType): (n: nat)
    ensures n <= |ps|
    ensures n == 0 <==> !HasKind(ps, k)
  {
    if ps == [] then 0 else (if ps[0].kind == k then 1 else 0) + CountKind(ps[1..], k)
  }

  lemma {:induction false} CountKindAppend(a: seq<TableProblem>, b: seq<TableProblem>, k: ProblemType)
    ensures CountKind(a + b, k) == CountKind(a, k) + CountKind(b, k)
  {
    if a != [] {
      assert (a + b)[1..] == a[1..] + b;
      CountKindAppend(a[1..], b, k);
    } else {
      assert a + b == b;
    }
  }

  lemma AppendAssociates<T>(s: seq<T>, a: seq<T>, b: seq<T>)
    ensures s + a + b == s + (a + b)
  {
  }

  lemma Associate4<T>(s: seq<T>, a: seq<T>, b: seq<T>, c: seq<T>, d: seq<T>)
    ensures s + a + b + c + d == s + (a + b + c + d)
  {
  }

  /** Appending several pieces in turn appends their concatenation. */
  lemma Associate<T>(s: seq<T>, a: seq<T>, b: seq<T>, c: seq<T>, d: seq<T>, e: seq<T>)
    ensures s + a + b + c + d + e == s + (a + b + c + d + e)
  {
  }

  /** A caller-supplied sink: ProblemListener.addProblem / ProblemHandler.addProblem. */
  class ProblemSink<P> {
    var problems: seq<P>

    constructor ()
      ensures problems == []
    {
      problems := [];
    }

    method Add(p: P)
      modifies this
      ensures problems == old(problems) + [p]
    {
      problems := problems + [p];
    }
  }
}
