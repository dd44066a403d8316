/**
 * The row materializer: it reads the result set of one query into a matrix of
 * nullable cells. The decode kind of each column is picked from what the
 * column's scan type converts to; every row is scanned into one cell per
 * column; the first scan error aborts the whole read.
 *
 * The engine is an oracle. A result set is either the error that reading its
 * column types gave or the column types plus the rows the driver yields, each
 * raw value being NULL or a value together with what converting it to each of
 * the four payload types gives.
 */
module Rows {
  import opened Wrappers
  import opened Wire
  import Decimal

  /** What `reflect.Type.ConvertibleTo` answers for a column's scan type and each payload type. */
  datatype ScanType = ScanType(toString: bool, toFloat64: bool, toInt64: bool, toBool: bool)

  /** A column as the driver describes it. */
  datatype ColumnType = ColumnType(name: string, databaseTypeName: string, scan: ScanType)

  /** The nullable wrapper a column is scanned into. */
  datatype DecodeKind = StringKind | Float64Kind | Int64Kind | BoolKind

  /**
   * One scanned cell: `sql.NullString`, `sql.NullFloat64`, `sql.NullInt64` or
   * `sql.NullBool`. A float is kept as its IEEE 754 bit pattern and never
   * computed with.
   */
  datatype Cell =
    | NullString(str: string, valid: bool)
    | NullFloat64(float64: bv64, valid: bool)
    | NullInt64(int64: int, valid: bool)
    | NullBool(boolean: bool, valid: bool)

  /** A raw value as the driver hands it over: NULL, or a value with its four conversions. */
  datatype DriverValue =
    | DbNull
    | DbValue(asString: Result<string, string>, asFloat64: Result<bv64, string>,
              asInt64: Result<int, string>, asBool: Result<bool, string>)

  /**
   * A result set. `iterError` is what `rows.Err()` would report after the rows
   * ran out; the materializer never asks for it.
   */
  datatype EngineRows = EngineRows(
    columnTypes: Result<seq<ColumnType>, string>,
    rows: seq<seq<DriverValue>>,
    iterError: Option<string>)

  /** The materialized page: one column header per column type and the cell matrix. */
  datatype Page = Page(columns: seq<Column>, data: seq<seq<Cell>>)

  /** Why `rows.Scan` failed. */
  datatype ScanError =
    | ArityMismatch(have: nat, want: nat)
    | ColumnError(index: nat, name: string, cause: string)

  function KindOfCell(c: Cell): DecodeKind {
    match c
    case NullString(_, _) => StringKind
    case NullFloat64(_, _) => Float64Kind
    case NullInt64(_, _) => Int64Kind
    case NullBool(_, _) => BoolKind
  }

  /** The kinds in the order the materializer tries them. */
  const Priority: seq<DecodeKind> := [StringKind, Float64Kind, Int64Kind, BoolKind]

  predicate Converts(t: ScanType, k: DecodeKind) {
    match k
    case StringKind => t.toString
    case Float64Kind => t.toFloat64
    case Int64Kind => t.toInt64
    case BoolKind => t.toBool
  }

  /**
   * The decode kind of a column: string if its scan type converts to string,
   * else float, else integer, else boolean, and string when it converts to none.
   */
  function KindOf(t: ScanType): (k: DecodeKind)
    ensures k == StringKind <==> t.toString || !(t.toFloat64 || t.toInt64 || t.toBool)
    ensures k == Float64Kind <==> !t.toString && t.toFloat64
    ensures k == Int64Kind <==> !t.toString && !t.toFloat64 && t.toInt64
    ensures k == BoolKind <==> !t.toString && !t.toFloat64 && !t.toInt64 && t.toBool
  {
    if t.toString then StringKind
    else if t.toFloat64 then Float64Kind
    else if t.toInt64 then Int64Kind
    else if t.toBool then BoolKind
    else StringKind
  }

  /** The first kind of `order` the scan type converts to, or string when there is none. */
  function FirstConverting(t: ScanType, order: seq<DecodeKind>): DecodeKind {
    if |order| == 0 then StringKind
    else if Converts(t, order[0]) then order[0]
    else FirstConverting(t, order[1..])
  }

  /** The kind picked is the first one in priority order that the scan type converts to. */
  lemma KindIsFirstConverting(t: ScanType)
    ensures KindOf(t) == FirstConverting(t, Priority)
    ensures Converts(t, KindOf(t)) || forall k :: !Converts(t, k)
    ensures forall i :: 0 <= i < |Priority| && Converts(t, Priority[i]) ==>
              exists j :: 0 <= j <= i && Priority[j] == KindOf(t)
  {
    var p1 := [Float64Kind, Int64Kind, BoolKind];
    var p2 := [Int64Kind, BoolKind];
    var p3 := [BoolKind];
    assert Priority[1..] == p1 && p1[1..] == p2 && p2[1..] == p3 && p3[1..] == [];
    assert FirstConverting(t, Priority) == KindOf(t) by {
      assert FirstConverting(t, p3) == (if t.toBool then BoolKind else StringKind);
      assert FirstConverting(t, p2) == (if t.toInt64 then Int64Kind else FirstConverting(t, p3));
      assert FirstConverting(t, p1) == (if t.toFloat64 then Float64Kind else FirstConverting(t, p2));
    }
    forall i | 0 <= i < |Priority| && Converts(t, Priority[i])
      ensures exists j :: 0 <= j <= i && Priority[j] == KindOf(t)
    {
      var j := if t.toString then 0 else if t.toFloat64 then 1 else if t.toInt64 then 2 else 3;
      assert Priority[j] == KindOf(t);
    }
  }

  /** The cell a NULL of kind `k` leaves: zero payload, not valid. */
  function NullCell(k: DecodeKind): (c: Cell)
    ensures KindOfCell(c) == k && !c.valid
  {
    match k
    case StringKind => NullString("", false)
    case Float64Kind => NullFloat64(0, false)
    case Int64Kind => NullInt64(0, false)
    case BoolKind => NullBool(false, false)
  }

  /** `NullX.Scan`: NULL gives an invalid cell, anything else a valid one or the conversion's error. */
  function Decode(k: DecodeKind, v: DriverValue): (r: Result<Cell, string>)
    ensures r.Success? ==> KindOfCell(r.value) == k
    ensures r.Success? ==> (r.value.valid <==> v.DbValue?)
    ensures v.DbNull? ==> r.Success?
    ensures r.Failure? ==> v.DbValue?
  {
    match v
    case DbNull => Success(NullCell(k))
    case DbValue(asString, asFloat64, asInt64, asBool) =>
      match k
      case StringKind =>
        (match asString case Success(s) => Success(NullString(s, true)) case Failure(e) => Failure(e))
      case Float64Kind =>
        (match asFloat64 case Success(f) => Success(NullFloat64(f, true)) case Failure(e) => Failure(e))
      case Int64Kind =>
        (match asInt64 case Success(n) => Success(NullInt64(n, true)) case Failure(e) => Failure(e))
      case BoolKind =>
        (match asBool case Success(b) => Success(NullBool(b, true)) case Failure(e) => Failure(e))
  }

  /** The decode kind of every column, in column order. */
  function Kinds(cts: seq<ColumnType>): (ks: seq<DecodeKind>)
    ensures |ks| == |cts|
    ensures forall i :: 0 <= i < |cts| ==> ks[i] == KindOf(cts[i].scan)
  {
    seq(|cts|, i requires 0 <= i < |cts| => KindOf(cts[i].scan))
  }

  /** The column headers of the page: each column's name and database type name. */
  function ColumnsOf(cts: seq<ColumnType>): (cols: seq<Column>)
    ensures |cols| == |cts|
    ensures forall i :: 0 <= i < |cts| ==> cols[i] == Column(cts[i].name, cts[i].databaseTypeName)
  {
    seq(|cts|, i requires 0 <= i < |cts| => Column(cts[i].name, cts[i].databaseTypeName))
  }

  /**
   * The first `n` columns of `row` decoded, stopping at the first column whose
   * conversion fails.
   */
  function DecodePrefix(cts: seq<ColumnType>, kinds: seq<DecodeKind>, row: seq<DriverValue>, n: nat)
    : (r: Result<seq<Cell>, ScanError>)
    requires |kinds| == |cts| == |row| && n <= |row|
    ensures r.Success? ==> |r.value| == n
    ensures r.Success? ==> forall j :: 0 <= j < n ==> Decode(kinds[j], row[j]) == Success(r.value[j])
    ensures r.Failure? <==> exists j :: 0 <= j < n && Decode(kinds[j], row[j]).Failure?
    ensures r.Failure? ==> r.error.ColumnError? && r.error.index < n
                           && r.error.name == cts[r.error.index].name
                           && Decode(kinds[r.error.index], row[r.error.index]) == Failure(r.error.cause)
                           && forall j :: 0 <= j < r.error.index ==> Decode(kinds[j], row[j]).Success?
  {
    if n == 0 then Success([])
    else
      match DecodePrefix(cts, kinds, row, n - 1)
      case Failure(e) => Failure(e)
      case Success(cells) =>
        match Decode(kinds[n - 1], row[n - 1])
        case Failure(e) => Failure(ColumnError(n - 1, cts[n - 1].name, e))
        case Success(c) => Success(cells + [c])
  }

  /**
   * `rows.Scan` into one wrapper per column: the driver's row must have one
   * value per destination, and then each value is decoded in column order.
   */
  function ScanRow(cts: seq<ColumnType>, kinds: seq<DecodeKind>, row: seq<DriverValue>)
    : (r: Result<seq<Cell>, ScanError>)
    requires |kinds| == |cts|
    ensures |row| != |kinds| ==> r == Failure(ArityMismatch(|row|, |kinds|))
    ensures r.Success? ==> |r.value| == |cts|
  {
    if |row| != |kinds| then Failure(ArityMismatch(|row|, |kinds|))
    else DecodePrefix(cts, kinds, row, |row|)
  }

  /** The rows scanned in order; the first row that fails to scan decides the error. */
  function ScanAll(cts: seq<ColumnType>, rows: seq<seq<DriverValue>>): Result<seq<seq<Cell>>, ScanError>
  {
    if |rows| == 0 then Success([])
    else
      match ScanAll(cts, rows[..|rows| - 1])
      case Failure(e) => Failure(e)
      case Success(done) =>
        match ScanRow(cts, Kinds(cts), rows[|rows| - 1])
        case Failure(e) => Failure(e)
        case Success(cells) => Success(done + [cells])
  }

  /** The error text `database/sql` gives for a failed scan. */
  function ScanErrorText(e: ScanError): (t: string)
    ensures |t| > 0
  {
    match e
    case ArityMismatch(have, want) =>
      "sql: expected " + Decimal.Itoa(have) + " destination arguments in Scan, not " + Decimal.Itoa(want)
    case ColumnError(index, name, cause) =>
      "sql: Scan error on column index " + Decimal.Itoa(index) + ", name " + Decimal.Quote(name) + ": " + cause
  }

  /** The whole result set read into a page, or the first error met. */
  function Materialize(r: EngineRows): Result<Page, string> {
    match r.columnTypes
    case Failure(e) => Failure(e)
    case Success(cts) =>
      match ScanAll(cts, r.rows)
      case Failure(e) => Failure(ScanErrorText(e))
      case Success(data) => Success(Page(ColumnsOf(cts), data))
  }

  /** ScanAll succeeds exactly when every row scans, and then holds those rows' cells in order. */
  lemma {:induction false} ScanAllRows(cts: seq<ColumnType>, rows: seq<seq<DriverValue>>)
    ensures ScanAll(cts, rows).Success? <==> forall i :: 0 <= i < |rows| ==> ScanRow(cts, Kinds(cts), rows[i]).Success?
    ensures ScanAll(cts, rows).Success? ==>
              |ScanAll(cts, rows).value| == |rows|
              && forall i :: 0 <= i < |rows| ==> ScanAll(cts, rows).value[i] == ScanRow(cts, Kinds(cts), rows[i]).value
    ensures ScanAll(cts, rows).Failure? ==>
              exists i :: 0 <= i < |rows| && ScanRow(cts, Kinds(cts), rows[i]) == Failure(ScanAll(cts, rows).error)
                          && forall j :: 0 <= j < i ==> ScanRow(cts, Kinds(cts), rows[j]).Success?
  {
    if |rows| > 0 {
      var init := rows[..|rows| - 1];
      ScanAllRows(cts, init);
      assert forall i :: 0 <= i < |init| ==> init[i] == rows[i];
    }
  }

  /** Once a prefix of the rows fails to scan, no later row changes the outcome. */
  lemma {:induction false} ScanAllStopsAtFailure(cts: seq<ColumnType>, rows: seq<seq<DriverValue>>, n: nat)
    requires n <= |rows| && ScanAll(cts, rows[..n]).Failure?
    ensures ScanAll(cts, rows) == ScanAll(cts, rows[..n])
    decreases |rows| - n
  {
    if n < |rows| {
      var longer := rows[..n + 1];
      assert longer[..|longer| - 1] == rows[..n];
      ScanAllStopsAtFailure(cts, rows, n + 1);
    } else {
      assert rows[..n] == rows;
    }
  }

  /**
   * A successful page has one header per column, one row per engine row in the
   * engine's order, one cell per column in column order, each cell of the kind
   * its column's scan type picks and decoded from the raw value at that place.
   */
  lemma MaterializeShape(r: EngineRows)
    requires Materialize(r).Success?
    ensures r.columnTypes.Success?
    ensures var cts := r.columnTypes.value; var p := Materialize(r).value;
      && p.columns == ColumnsOf(cts)
      && |p.data| == |r.rows|
      && forall i :: 0 <= i < |r.rows| ==>
           |p.data[i]| == |cts| == |r.rows[i]|
           && forall j :: 0 <= j < |cts| ==>
                KindOfCell(p.data[i][j]) == KindOf(cts[j].scan)
                && Decode(KindOf(cts[j].scan), r.rows[i][j]) == Success(p.data[i][j])
  {
    var cts := r.columnTypes.value;
    ScanAllRows(cts, r.rows);
    var p := Materialize(r).value;
    forall i | 0 <= i < |r.rows|
      ensures |p.data[i]| == |cts| == |r.rows[i]|
      ensures forall j :: 0 <= j < |cts| ==>
                KindOfCell(p.data[i][j]) == KindOf(cts[j].scan)
                && Decode(KindOf(cts[j].scan), r.rows[i][j]) == Success(p.data[i][j])
    {
      assert ScanRow(cts, Kinds(cts), r.rows[i]).Success?;
    }
  }

  /** A database NULL comes out as an invalid cell, whatever the column's kind. */
  lemma NullIsInvalid(r: EngineRows, i: nat, j: nat)
    requires Materialize(r).Success?
    requires i < |r.rows| && j < |r.rows[i]| && r.rows[i][j] == DbNull
    ensures r.columnTypes.Success? && |Materialize(r).value.data| == |r.rows|
    ensures |Materialize(r).value.data[i]| == |r.rows[i]| == |r.columnTypes.value|
    ensures Materialize(r).value.data[i][j] == NullCell(KindOf(r.columnTypes.value[j].scan))
  {
    MaterializeShape(r);
  }

  /**
   * No partial result: a failure is the column-types error, or else the scan
   * error of the first row that does not scan, all rows before it scanning.
   */
  lemma MaterializeFailure(r: EngineRows)
    requires Materialize(r).Failure?
    ensures r.columnTypes.Failure? ==> Materialize(r).error == r.columnTypes.error
    ensures r.columnTypes.Success? ==>
      var cts := r.columnTypes.value;
      exists i :: 0 <= i < |r.rows|
        && ScanRow(cts, Kinds(cts), r.rows[i]).Failure?
        && Materialize(r).error == ScanErrorText(ScanRow(cts, Kinds(cts), r.rows[i]).error)
        && forall j :: 0 <= j < i ==> ScanRow(cts, Kinds(cts), r.rows[j]).Success?
  {
    if r.columnTypes.Success? {
      ScanAllRows(r.columnTypes.value, r.rows);
    }
  }

  /** With readable column types, the read fails exactly when some row does not scan. */
  lemma MaterializeSucceeds(r: EngineRows)
    requires r.columnTypes.Success?
    ensures Materialize(r).Success? <==>
      forall i :: 0 <= i < |r.rows| ==> ScanRow(r.columnTypes.value, Kinds(r.columnTypes.value), r.rows[i]).Success?
  {
    ScanAllRows(r.columnTypes.value, r.rows);
  }

  /** An empty result set gives an empty matrix, not a missing one. */
  lemma NoRowsEmptyData(r: EngineRows)
    requires r.columnTypes.Success? && |r.rows| == 0
    ensures Materialize(r) == Success(Page(ColumnsOf(r.columnTypes.value), []))
  {
  }

  /** `rows.Scan` as a loop over the columns, stopping at the first failure. */
  method Scan(cts: seq<ColumnType>, kinds: seq<DecodeKind>, row: seq<DriverValue>)
    returns (r: Result<seq<Cell>, ScanError>)
    requires |kinds| == |cts|
    ensures r == ScanRow(cts, kinds, row)
  {
    if |row| != |kinds| {
      return Failure(ArityMismatch(|row|, |kinds|));
    }
    var cells: seq<Cell> := [];
    var i := 0;
    while i < |row|
      invariant 0 <= i <= |row|
      invariant DecodePrefix(cts, kinds, row, i) == Success(cells)
    {
      var c := Decode(kinds[i], row[i]);
      if c.Failure? {
        return Failure(ColumnError(i, cts[i].name, c.error));
      }
      cells := cells + [c.value];
      i := i + 1;
    }
    return Success(cells);
  }

  /** One fresh wrapper kind per column, chosen from its scan type. */
  method ChooseKinds(cts: seq<ColumnType>) returns (kinds: seq<DecodeKind>)
    ensures kinds == Kinds(cts)
  {
    kinds := [];
    var i := 0;
    while i < |cts|
      invariant 0 <= i <= |cts| && |kinds| == i
      invariant forall j :: 0 <= j < i ==> kinds[j] == KindOf(cts[j].scan)
    {
      kinds := kinds + [KindOf(cts[i].scan)];
      i := i + 1;
    }
  }

  /** One more row scanned onto a successful prefix extends its cells by that row's. */
  lemma ScanAllStep(cts: seq<ColumnType>, rows: seq<seq<DriverValue>>, n: nat, done: seq<seq<Cell>>)
    requires n < |rows| && ScanAll(cts, rows[..n]) == Success(done)
    ensures ScanRow(cts, Kinds(cts), rows[n]).Success? ==>
              ScanAll(cts, rows[..n + 1]) == Success(done + [ScanRow(cts, Kinds(cts), rows[n]).value])
    ensures ScanRow(cts, Kinds(cts), rows[n]).Failure? ==>
              ScanAll(cts, rows) == Failure(ScanRow(cts, Kinds(cts), rows[n]).error)
  {
    assert rows[..n + 1][..n] == rows[..n];
    if ScanRow(cts, Kinds(cts), rows[n]).Failure? {
      ScanAllStopsAtFailure(cts, rows, n + 1);
    }
  }

  /**
   * The materializer as the server runs it: read the column types, then for
   * each row pick every column's decode kind afresh, scan the row and append
   * it; the first error is returned instead of any rows.
   */
  method RowsToJson(r: EngineRows) returns (res: Result<Page, string>)
    ensures res == Materialize(r)
    ensures res.Success? ==> |res.value.data| == |r.rows|
    ensures res.Success? ==> forall i :: 0 <= i < |res.value.data| ==> |res.value.data[i]| == |res.value.columns|
  {
    if r.columnTypes.Failure? {
      return Failure(r.columnTypes.error);
    }
    var cts := r.columnTypes.value;
    var finalRows: seq<seq<Cell>> := [];
    var n := 0;
    while n < |r.rows|
      invariant 0 <= n <= |r.rows|
      invariant ScanAll(cts, r.rows[..n]) == Success(finalRows)
    {
      var kinds := ChooseKinds(cts);
      var scanned := Scan(cts, kinds, r.rows[n]);
      ScanAllStep(cts, r.rows, n, finalRows);
      if scanned.Failure? {
        return Failure(ScanErrorText(scanned.error));
      }
      finalRows := finalRows + [scanned.value];
      n := n + 1;
    }
    assert r.rows[..n] == r.rows;
    res := Success(Page(ColumnsOf(cts), finalRows));
    MaterializeShape(r);
  }
}
