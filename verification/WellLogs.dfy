/** Consistency of WellLog records: unique curve ids, columns against curves, and the reference curve. */
module WellLogs {
  import opened Wrappers
  import opened Text
  import opened Records
  import opened ColumnLabels

  /** A curve of the record; an absent or empty id is "". */
  datatype Curve = Curve(id: string, columns: Option<Json>, family: string)

  // ---------- record checks ----------

  ghost predicate UniqueIds(curves: seq<Curve>) {
    forall i, j | 0 <= i < j < |curves| && curves[i].id != "" :: curves[i].id != curves[j].id
  }

  ghost predicate IsCurveId(curves: seq<Curve>, id: string) { exists i :: 0 <= i < |curves| && curves[i].id == id }

  /** Collects the ids, stopping at the first repeated one. */
  method UniqueCurveIds(curves: seq<Curve>) returns (values: set<string>, duplicated: bool)
    ensures duplicated <==> !UniqueIds(curves)
    ensures !duplicated ==> forall x :: x in values <==> x != "" && IsCurveId(curves, x)
  {
    values, duplicated := {}, false;
    for i := 0 to |curves|
      invariant UniqueIds(curves[..i])
      invariant forall x :: x in values <==> x != "" && IsCurveId(curves[..i], x)
    {
      var value := curves[i].id;
      ghost var seen := curves[..i + 1];
      assert seen == curves[..i] + [curves[i]] && seen[i] == curves[i];
      if value != "" {
        if value in values {
          assert IsCurveId(curves[..i], value);
          return values, true;
        }
        assert !IsCurveId(curves[..i], value);
        values := values + {value};
      }
      forall x ensures IsCurveId(seen, x) <==> IsCurveId(curves[..i], x) || x == curves[i].id {
        if IsCurveId(curves[..i], x) {
          var j :| 0 <= j < i && curves[..i][j].id == x;
          assert seen[j].id == x;
        }
      }
    }
    assert curves[..|curves|] == curves;
  }

  datatype RecordCheck = Consistent | DuplicatedCurveId | ReferenceNotFound

  /** Accepted exactly when curve ids are unique and the reference, if given, is one of them. */
  method CheckWellLog(curves: seq<Curve>, reference: string) returns (r: RecordCheck)
    ensures r.DuplicatedCurveId? <==> !UniqueIds(curves)
    ensures r.Consistent? <==> UniqueIds(curves) && (reference == "" || IsCurveId(curves, reference))
  {
    var ids, duplicated := UniqueCurveIds(curves);
    if duplicated { return DuplicatedCurveId; }
    if reference != "" && reference !in ids { return ReferenceNotFound; }
    return Consistent;
  }

  // ---------- columns against curves ----------

  datatype ColumnCheck = Matching | UnknownColumn | MissingCurveId | WrongColumnCount

  /** Declared sizes by id; a later curve with the same id wins. */
  function DeclaredSizes(curves: seq<Curve>): map<string, Json> {
    if curves == [] then map[]
    else
      var c := curves[|curves| - 1];
      DeclaredSizes(curves[..|curves| - 1])[c.id := Declared(c)]
  }

  function Declared(c: Curve): Json { if c.columns.None? then Num(1) else c.columns.value }

  /** Equality of a declared value and a count: truth values count as 0 and 1. */
  predicate SizeIs(declared: Json, n: nat) {
    match declared
    case Num(m) => m == n
    case Bool(b) => (if b then 1 else 0) == n
    case _ => false
  }

  /** Numbers are compared as such, and no text, list or object equals a count. */
  lemma SizesCompared(m: int, n: nat, j: Json)
    ensures SizeIs(Num(m), n) <==> m == n
    ensures SizeIs(Bool(true), n) <==> n == 1
    ensures SizeIs(Bool(false), n) <==> n == 0
    ensures j.Str? || j.Arr? || j.Obj? || j.Null? ==> !SizeIs(j, n)
  {
  }

  /** `any(...)` over texts: some text is not empty. */
  predicate AnyText(s: set<string>) { exists x :: x in s && x != "" }

  function CheckColumns(curves: seq<Curve>, sizes: Counts): ColumnCheck {
    if curves == [] && sizes != map[] then UnknownColumn
    else if exists i :: 0 <= i < |curves| && curves[i].id == "" then MissingCurveId
    else
      var declared := DeclaredSizes(curves);
      if AnyText(sizes.Keys - declared.Keys) then UnknownColumn
      else if AnyText(set c | c in declared && c in sizes && !SizeIs(declared[c], sizes[c])) then WrongColumnCount
      else Matching
  }

  lemma {:induction false} DeclaredIds(curves: seq<Curve>, id: string)
    ensures id in DeclaredSizes(curves) <==> IsCurveId(curves, id)
  {
    if curves != [] {
      var before, c := curves[..|curves| - 1], curves[|curves| - 1];
      DeclaredIds(before, id);
      assert curves == before + [c];
      if IsCurveId(before, id) {
        var i :| 0 <= i < |before| && before[i].id == id;
        assert curves[i].id == id;
      }
    }
  }

  lemma {:induction false} DeclaredValue(curves: seq<Curve>, i: nat)
    requires i < |curves| && curves[i].id != "" && UniqueIds(curves)
    ensures curves[i].id in DeclaredSizes(curves) && DeclaredSizes(curves)[curves[i].id] == Declared(curves[i])
  {
    var before, c := curves[..|curves| - 1], curves[|curves| - 1];
    if i < |before| {
      assert before[i] == curves[i] && curves[|curves| - 1] == c;
      assert forall j | 0 <= j < |before| :: before[j] == curves[j];
      DeclaredValue(before, i);
    }
  }

  lemma {:induction false} CountIsOccurrences(labels: seq<string>, k: string)
    requires NoOverwrite(labels) && "" !in labels
    ensures Count(CurveCounts(labels), k) == |OfCurve(labels, k)|
    ensures k in CurveCounts(labels) <==> OfCurve(labels, k) != []
    ensures k in CurveCounts(labels) ==> k != ""
  {
    GroupsPartition(labels, k);
    GroupingsAgree(labels);
    EmptyLabels(labels);
  }

  /**
   The check is sound and complete: it passes exactly when every curve has an id, every column belongs to
   a listed curve, and every listed curve with data has as many columns as it declares, one by default.
   */
  lemma ColumnCheckIsExact(curves: seq<Curve>, labels: seq<string>)
    requires UniqueIds(curves) && NoOverwrite(labels) && "" !in labels
    ensures CheckColumns(curves, CurveCounts(labels)).Matching? <==>
      && (forall i | 0 <= i < |curves| :: curves[i].id != "")
      && (forall i | 0 <= i < |labels| :: IsCurveId(curves, CurveOf(labels[i])))
      && (forall i | 0 <= i < |curves| && OfCurve(labels, curves[i].id) != [] ::
            if curves[i].columns.None? then |OfCurve(labels, curves[i].id)| == 1
            else SizeIs(curves[i].columns.value, |OfCurve(labels, curves[i].id)|))
  {
    if forall i | 0 <= i < |curves| :: curves[i].id != "" {
      KnownColumns(curves, labels);
      RightCounts(curves, labels);
    }
    if curves == [] { NoCurves(labels); }
  }

  /** Why columns are refused: a curve without id first, then an unlisted label, then a wrong count. */
  lemma ColumnReasons(curves: seq<Curve>, labels: seq<string>)
    requires UniqueIds(curves) && NoOverwrite(labels) && "" !in labels
    ensures var r := CheckColumns(curves, CurveCounts(labels));
      && (r == MissingCurveId <==> exists i :: 0 <= i < |curves| && curves[i].id == "")
      && (r == UnknownColumn <==>
            r != MissingCurveId && exists i :: 0 <= i < |labels| && !IsCurveId(curves, CurveOf(labels[i])))
  {
    if forall i | 0 <= i < |curves| :: curves[i].id != "" { KnownColumns(curves, labels); }
    NoCurves(labels);
  }

  /** Without any curve only data without columns passes. */
  lemma NoCurves(labels: seq<string>)
    requires NoOverwrite(labels) && "" !in labels
    ensures CurveCounts(labels) == map[] <==> labels == []
  {
    if labels != [] {
      CountIsOccurrences(labels, CurveOf(labels[0]));
      assert labels[0] in OfCurve(labels, CurveOf(labels[0]));
    }
  }

  lemma KnownColumns(curves: seq<Curve>, labels: seq<string>)
    requires NoOverwrite(labels) && "" !in labels
    ensures !AnyText(CurveCounts(labels).Keys - DeclaredSizes(curves).Keys) <==>
            forall i | 0 <= i < |labels| :: IsCurveId(curves, CurveOf(labels[i]))
  {
    var extra := CurveCounts(labels).Keys - DeclaredSizes(curves).Keys;
    forall k ensures k in extra <==> OfCurve(labels, k) != [] && !IsCurveId(curves, k) {
      CountIsOccurrences(labels, k);
      DeclaredIds(curves, k);
    }
    forall i | 0 <= i < |labels|
      ensures CurveOf(labels[i]) in extra <==> !IsCurveId(curves, CurveOf(labels[i]))
      ensures CurveOf(labels[i]) != ""
    {
      assert labels[i] in OfCurve(labels, CurveOf(labels[i]));
      assert labels[i] in labels;
      CurveNamesAreNonEmpty(labels[i]);
    }
    if AnyText(extra) {
      var k :| k in extra && k != "";
      assert OfCurve(labels, k)[0] in OfCurve(labels, k);
      var i :| 0 <= i < |labels| && labels[i] == OfCurve(labels, k)[0];
    }
  }

  lemma RightCounts(curves: seq<Curve>, labels: seq<string>)
    requires UniqueIds(curves) && NoOverwrite(labels) && "" !in labels
    requires forall i | 0 <= i < |curves| :: curves[i].id != ""
    ensures var declared, sizes := DeclaredSizes(curves), CurveCounts(labels);
      !AnyText(set c | c in declared && c in sizes && !SizeIs(declared[c], sizes[c])) <==>
      forall i | 0 <= i < |curves| && OfCurve(labels, curves[i].id) != [] ::
        SizeIs(Declared(curves[i]), |OfCurve(labels, curves[i].id)|)
  {
    var declared, sizes := DeclaredSizes(curves), CurveCounts(labels);
    var wrong := set c | c in declared && c in sizes && !SizeIs(declared[c], sizes[c]);
    forall i | 0 <= i < |curves|
      ensures curves[i].id in wrong <==>
              OfCurve(labels, curves[i].id) != [] && !SizeIs(Declared(curves[i]), |OfCurve(labels, curves[i].id)|)
    {
      DeclaredValue(curves, i);
      CountIsOccurrences(labels, curves[i].id);
    }
    if AnyText(wrong) {
      var k :| k in wrong && k != "";
      DeclaredIds(curves, k);
      var i :| 0 <= i < |curves| && curves[i].id == k;
    }
  }

  // ---------- the reference curve ----------

  datatype Cell = Value(v: real) | NaN

  predicate HasNaN(col: seq<Cell>) { exists i :: 0 <= i < |col| && col[i].NaN? }

  /** Non-strict, and false as soon as a cell is not a number. */
  predicate Increasing(col: seq<Cell>) {
    !HasNaN(col) && forall i, j | 0 <= i < j < |col| :: col[i].Value? && col[j].Value? && col[i].v <= col[j].v
  }

  predicate Decreasing(col: seq<Cell>) {
    !HasNaN(col) && forall i, j | 0 <= i < j < |col| :: col[i].Value? && col[j].Value? && col[i].v >= col[j].v
  }

  predicate HasDuplicate(col: seq<Cell>) { exists i, j :: 0 <= i < j < |col| && col[i] == col[j] }

  datatype Monotonicity = Up | Down | Neither

  /** What is known of a column: monotonicity, repetition, missing numbers, first and last cell. */
  datatype Describe = Describe(monotonicity: Monotonicity, hasDuplicate: bool, hasNan: bool, start: Cell, end: Cell)

  function DescribeColumn(col: seq<Cell>): Describe
    requires col != []
  {
    Describe(if Increasing(col) then Up else if Decreasing(col) then Down else Neither,
             HasDuplicate(col), HasNaN(col), col[0], col[|col| - 1])
  }

  datatype ReferenceCheck = Good | Repeated | NanFound | NotMonotonic | WrongStart | WrongStop

  function CheckStrictlyMonotonic(d: Describe): ReferenceCheck {
    if d.hasDuplicate then Repeated
    else if d.monotonicity.Neither? then if d.hasNan then NanFound else NotMonotonic
    else Good
  }

  function Abs(x: real): real { if x < 0.0 then -x else x }

  function Max(x: real, y: real): real { if x < y then y else x }

  const TOLERANCE: real := 0.000000001

  predicate IsClose(a: real, b: real) { Abs(a - b) <= TOLERANCE * Max(Abs(a), Abs(b)) }

  /** The difference is at most a thousand-millionth of the greater absolute value. */
  lemma CloseMeans(a: real, b: real)
    ensures IsClose(a, b) <==>
      var d := if a < b then b - a else a - b;
      || 1_000_000_000.0 * d <= a || 1_000_000_000.0 * d <= -a
      || 1_000_000_000.0 * d <= b || 1_000_000_000.0 * d <= -b
  {
  }

  /** A sampling bound of the record, if given, is close to the cell; a missing number is close to nothing. */
  predicate Near(bound: Option<real>, cell: Cell) { bound.None? || (cell.Value? && IsClose(bound.value, cell.v)) }

  /** A bound that is not given is near everything, one that is given only to numbers close to it. */
  lemma NearMeans(bound: real, v: real, cell: Cell)
    ensures Near(None, cell) && !Near(Some(bound), NaN)
    ensures Near(Some(bound), Value(v)) <==> IsClose(bound, v)
  {
  }

  function CheckReference(d: Describe, samplingStart: Option<real>, samplingStop: Option<real>): ReferenceCheck {
    var strict := CheckStrictlyMonotonic(d);
    if !strict.Good? then strict
    else if !Near(samplingStart, d.start) then WrongStart
    else if !Near(samplingStop, d.end) then WrongStop
    else Good
  }

  predicate StrictlyMonotone(col: seq<Cell>) {
    && (forall i | 0 <= i < |col| :: col[i].Value?)
    && (|| (forall i, j | 0 <= i < j < |col| :: col[i].v < col[j].v)
        || (forall i, j | 0 <= i < j < |col| :: col[i].v > col[j].v))
  }

  lemma StrictIsDistinctMonotone(col: seq<Cell>)
    requires col != []
    ensures CheckStrictlyMonotonic(DescribeColumn(col)).Good? <==> StrictlyMonotone(col)
  {
    if CheckStrictlyMonotonic(DescribeColumn(col)).Good? {
      forall i, j | 0 <= i < j < |col| ensures col[i].Value? && col[j].Value? && col[i].v != col[j].v {
        assert !HasDuplicate(col);
      }
    }
    if StrictlyMonotone(col) {
      assert Increasing(col) || Decreasing(col);
      assert !HasDuplicate(col);
    }
  }

  /** Why a reference is refused: repetition first, then missing numbers, then order, then its two ends. */
  lemma ReferenceReasons(col: seq<Cell>, samplingStart: Option<real>, samplingStop: Option<real>)
    requires col != []
    ensures var r := CheckReference(DescribeColumn(col), samplingStart, samplingStop);
      && (r == Repeated <==> exists i, j :: 0 <= i < j < |col| && col[i] == col[j])
      && (r == NanFound <==> r != Repeated && exists i :: 0 <= i < |col| && col[i] == NaN)
      && (r == NotMonotonic <==> r != Repeated && r != NanFound && !StrictlyMonotone(col))
      && (r == WrongStart <==> StrictlyMonotone(col) && !Near(samplingStart, col[0]))
      && (r == WrongStop <==>
            StrictlyMonotone(col) && Near(samplingStart, col[0]) && !Near(samplingStop, col[|col| - 1]))
  {
    StrictIsDistinctMonotone(col);
  }

  // ---------- the whole-bulk check ----------

  /** Distinct column labels, each with one cell per row. */
  datatype Frame = Frame(labels: seq<string>, rows: nat, cells: map<string, seq<Cell>>)

  ghost predicate FrameOk(f: Frame) {
    forall i | 0 <= i < |f.labels| :: f.labels[i] in f.cells && |f.cells[f.labels[i]]| == f.rows
  }

  datatype WellLog = WellLog(
    id: string, curves: seq<Curve>, reference: string, samplingStart: Option<real>, samplingStop: Option<real>)

  function MeasuredDepthFamily(id: string): string {
    Split(id, ':')[0] + ":reference-data--LogCurveFamily:Measured%20Depth:"
  }

  /** The family expected in the partition that the record's identifier names. */
  lemma FamilyOfPartition(partition: string, rest: string)
    requires ':' !in partition
    ensures MeasuredDepthFamily(partition + ":" + rest)
            == partition + ":reference-data--LogCurveFamily:Measured%20Depth:"
  {
    SplitCons(partition, rest, ':');
  }

  predicate ReferenceIsMeasuredDepth(wl: WellLog) {
    exists i :: 0 <= i < |wl.curves| && wl.curves[i].id == wl.reference
                && wl.curves[i].family == MeasuredDepthFamily(wl.id)
  }

  /** With unique ids it is the family of the reference curve itself that counts. */
  lemma FamilyOfReference(wl: WellLog, i: nat, partition: string, rest: string)
    requires UniqueIds(wl.curves) && i < |wl.curves| && wl.curves[i].id == wl.reference != ""
    requires wl.id == partition + ":" + rest && ':' !in partition
    ensures ReferenceIsMeasuredDepth(wl) <==>
            wl.curves[i].family == partition + ":reference-data--LogCurveFamily:Measured%20Depth:"
  {
    FamilyOfPartition(partition, rest);
  }

  datatype BulkCheck = Passed | BadColumns(why: ColumnCheck) | BadReference(error: ReferenceCheck)

  /** The check made when a whole bulk is posted. */
  function CheckBulk(wl: WellLog, f: Frame): BulkCheck
    requires FrameOk(f)
  {
    var sizes := CurveCounts(f.labels);
    var columns := CheckColumns(wl.curves, sizes);
    if !columns.Matching? then BadColumns(columns)
    else if wl.reference !in sizes then Passed
    else if !ReferenceIsMeasuredDepth(wl) then Passed
    else if wl.reference !in f.labels || f.rows == 0 then Passed
    else
      var r := CheckReference(DescribeColumn(f.cells[wl.reference]), wl.samplingStart, wl.samplingStop);
      if r.Good? then Passed else BadReference(r)
  }

  /**
   A non-empty bulk whose Measured Depth reference is a plain column is accepted exactly when its columns
   match the curves, the reference has a number in every row, is strictly increasing or strictly decreasing
   over all rows, and starts and stops where the record says, up to the tolerance.
   */
  lemma AcceptedReferenceIsStrict(wl: WellLog, f: Frame)
    requires FrameOk(f) && f.rows > 0
    requires wl.reference in f.labels && !IsArray(wl.reference) && wl.reference != "" && ReferenceIsMeasuredDepth(wl)
    ensures CheckBulk(wl, f).Passed? <==>
      var col := f.cells[wl.reference];
      && CheckColumns(wl.curves, CurveCounts(f.labels)).Matching?
      && StrictlyMonotone(col)
      && Near(wl.samplingStart, col[0]) && Near(wl.samplingStop, col[f.rows - 1])
  {
    var i :| 0 <= i < |f.labels| && f.labels[i] == wl.reference;
    PlainColumnCounted(f.labels, i);
    StrictIsDistinctMonotone(f.cells[wl.reference]);
  }

  /** Without data for the reference, or with one of another family, only the columns are checked. */
  lemma OtherwiseOnlyColumns(wl: WellLog, f: Frame)
    requires FrameOk(f)
    requires f.rows == 0 || wl.reference !in f.labels || wl.reference !in CurveCounts(f.labels)
             || !ReferenceIsMeasuredDepth(wl)
    ensures CheckBulk(wl, f).Passed? <==> CheckColumns(wl.curves, CurveCounts(f.labels)).Matching?
  {
  }

  lemma {:induction false} PlainColumnCounted(labels: seq<string>, i: nat)
    requires i < |labels| && !IsArray(labels[i]) && labels[i] != ""
    ensures labels[i] in CurveCounts(labels)
  {
    if i < |labels| - 1 {
      assert labels[..|labels| - 1][i] == labels[i];
      PlainColumnCounted(labels[..|labels| - 1], i);
    }
  }
}
