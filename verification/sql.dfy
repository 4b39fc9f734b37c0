/**
 * The relational side of the helper: runtime values as ADO.NET sees them,
 * bound parameters, statements, tabular results and the errors the
 * helper surfaces.
 */
module Sql {

  import opened Wrappers

  /** A runtime value. `ClrNull` is a C# null reference, `DbNull` is `DBNull.Value`. */
  datatype Datum =
    | ClrNull
    | DbNull
    | Int(i: int)
    | Text(s: string)
    | Bool(b: bool)
    | Timestamp(ticks: int)

  /** `value ?? DBNull.Value`: a null property value is bound as an explicit database null. */
  function Coalesce(d: Datum): (r: Datum)
    ensures r != ClrNull
    ensures d == ClrNull ==> r == DbNull
    ensures d != ClrNull ==> r == d
  {
    if d == ClrNull then DbNull else d
  }

  /** A `SqlParameter`: placeholder name and the value bound to it. */
  datatype Param = Param(name: string, value: Datum)

  /** The command text and the parameters added to the command. */
  datatype Statement = Statement(text: string, parameters: seq<Param>)

  /** One `DataRow`: column name to cell value. */
  type Row = map<string, Datum>

  datatype TableShape = TableShape(columns: set<string>, rows: seq<Row>)
  {
    /** Every row of a filled `DataTable` has a cell for exactly the table's columns. */
    predicate Wf()
    {
      forall k :: 0 <= k < |rows| ==> rows[k].Keys == columns
    }
  }

  /** A filled `DataTable`. */
  type Table = t: TableShape | t.Wf() witness TableShape({}, [])

  /**
   * The exceptions the helper raises itself, those that reach it from the
   * database, and those `Convert.ToDateTime` raises on a cell it cannot convert.
   */
  datatype Error =
    | ArgumentNull(nullArgument: string)
    | Argument(message: string, paramName: Option<string>)
    | Database(number: int)
    | InvalidCast(message: string)
    | Format(message: string)
}
