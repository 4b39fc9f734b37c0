/**
 * The row mapper: turning the rows of a filled `DataTable` into model
 * instances. GetAllModels and GetModelById map the CRUD properties only;
 * Select<T> maps every public property and converts DateTime ones.
 * Running the query itself is the parameter `fetch`.
 */
module Mapping {

  import opened Wrappers
  import opened Sql
  import opened Schema
  import opened Statements

  /** The result table has a column of that name and the row's cell in it is not a database null. */
  predicate HasValue(columns: set<string>, row: Row, name: string)
    requires row.Keys == columns
  {
    name in columns && row[name] != DbNull
  }

  /** What GetAllModels and GetModelById leave in `p`: the cell, for a CRUD property with a non-null cell; else the default. */
  function CrudValue(p: Property, columns: set<string>, row: Row): Datum
    requires row.Keys == columns
  {
    if !p.noCrud && HasValue(columns, row, p.name) then row[p.name] else p.default
  }

  /**
   * The value Select<T> stores from a cell: converted with Convert.ToDateTime
   * when the property is DateTime, as it is otherwise. The conversion fails
   * (InvalidCast, Format) on a cell it cannot turn into a DateTime.
   */
  function Converted(p: Property, cell: Datum, toDateTime: Datum -> Result<Datum, Error>): Result<Datum, Error>
  {
    if p.isDateTime then toDateTime(cell) else Ok(cell)
  }

  /** What Select<T> leaves in `p`: the cell (converted when `p` is DateTime) if non-null, else the default; or the conversion's error. */
  function SelectValue(p: Property, columns: set<string>, row: Row, toDateTime: Datum -> Result<Datum, Error>): Result<Datum, Error>
    requires row.Keys == columns
  {
    if HasValue(columns, row, p.name) then Converted(p, row[p.name], toDateTime) else Ok(p.default)
  }

  /** `model` is an instance of `t` holding, in each property, the CRUD mapping of `row`. */
  predicate IsCrudMapping(t: ModelType, columns: set<string>, row: Row, model: Record)
    requires row.Keys == columns
  {
    && IsInstance(t, model)
    && forall i :: 0 <= i < |t.properties| ==>
         model[t.properties[i].name] == CrudValue(t.properties[i], columns, row)
  }

  /** `model` is an instance of `t` holding, in each property, the Select<T> mapping of `row`. */
  predicate IsSelectMapping(t: ModelType, columns: set<string>, row: Row, toDateTime: Datum -> Result<Datum, Error>,
                            model: Record)
    requires row.Keys == columns
  {
    && IsInstance(t, model)
    && forall i :: 0 <= i < |t.properties| ==>
         SelectValue(t.properties[i], columns, row, toDateTime) == Ok(model[t.properties[i].name])
  }

  /** The exception Select<T> raises on `row` from property `from` on: that of the first failing conversion, if any. */
  function RowErrorFrom(ps: seq<Property>, columns: set<string>, row: Row, toDateTime: Datum -> Result<Datum, Error>,
                        from: nat): Option<Error>
    requires row.Keys == columns
    decreases |ps| - from
  {
    if from >= |ps| then None
    else
      var v := SelectValue(ps[from], columns, row, toDateTime);
      if v.Err? then Some(v.error) else RowErrorFrom(ps, columns, row, toDateTime, from + 1)
  }

  /** The exception Select<T> raises while mapping `row`, if any. */
  function RowError(t: ModelType, columns: set<string>, row: Row, toDateTime: Datum -> Result<Datum, Error>): Option<Error>
    requires row.Keys == columns
  {
    RowErrorFrom(t.properties, columns, row, toDateTime, 0)
  }

  /** The first error among `outcomes` from index `from` on, if any. */
  function FirstError(outcomes: seq<Option<Error>>, from: nat): Option<Error>
    decreases |outcomes| - from
  {
    if from >= |outcomes| then None
    else if outcomes[from].Some? then outcomes[from]
    else FirstError(outcomes, from + 1)
  }

  /** The outcome of mapping each row of `table` with Select<T>, in row order. */
  function RowErrors(t: ModelType, table: Table, toDateTime: Datum -> Result<Datum, Error>): seq<Option<Error>>
  {
    seq(|table.rows|, k requires 0 <= k < |table.rows| => RowError(t, table.columns, table.rows[k], toDateTime))
  }

  /** The exception Select<T> raises on `table`: that of the first row that fails to map, if any. */
  function TableError(t: ModelType, table: Table, toDateTime: Datum -> Result<Datum, Error>): Option<Error>
  {
    FirstError(RowErrors(t, table, toDateTime), 0)
  }

  /**
   * RowErrorFrom is the error of the first property, from `from` on, whose
   * conversion fails; there is none exactly when every conversion succeeds.
   */
  lemma {:induction false} RowErrorFromIsFirst(ps: seq<Property>, columns: set<string>, row: Row,
                                               toDateTime: Datum -> Result<Datum, Error>, from: nat)
    requires row.Keys == columns && from <= |ps|
    ensures RowErrorFrom(ps, columns, row, toDateTime, from).None? <==>
      forall i :: from <= i < |ps| ==> SelectValue(ps[i], columns, row, toDateTime).Ok?
    ensures RowErrorFrom(ps, columns, row, toDateTime, from).Some? ==>
      exists i :: from <= i < |ps|
        && SelectValue(ps[i], columns, row, toDateTime) == Err(RowErrorFrom(ps, columns, row, toDateTime, from).value)
        && forall i' :: from <= i' < i ==> SelectValue(ps[i'], columns, row, toDateTime).Ok?
    decreases |ps| - from
  {
    if from < |ps| {
      RowErrorFromIsFirst(ps, columns, row, toDateTime, from + 1);
      var v := SelectValue(ps[from], columns, row, toDateTime);
      if v.Err? {
        assert SelectValue(ps[from], columns, row, toDateTime) == Err(RowErrorFrom(ps, columns, row, toDateTime, from).value);
      } else if RowErrorFrom(ps, columns, row, toDateTime, from).Some? {
        var i :| from + 1 <= i < |ps|
          && SelectValue(ps[i], columns, row, toDateTime) == Err(RowErrorFrom(ps, columns, row, toDateTime, from).value)
          && forall i' :: from + 1 <= i' < i ==> SelectValue(ps[i'], columns, row, toDateTime).Ok?;
        assert forall i' :: from <= i' < i ==> SelectValue(ps[i'], columns, row, toDateTime).Ok?;
      }
    }
  }

  /**
   * FirstError is the first error from `from` on; there is none exactly when
   * every outcome from `from` on is a success.
   */
  lemma {:induction false} FirstErrorIsFirst(outcomes: seq<Option<Error>>, from: nat)
    requires from <= |outcomes|
    ensures FirstError(outcomes, from).None? <==> forall k :: from <= k < |outcomes| ==> outcomes[k].None?
    ensures FirstError(outcomes, from).Some? ==>
      exists k :: from <= k < |outcomes| && outcomes[k] == FirstError(outcomes, from)
        && forall k' :: from <= k' < k ==> outcomes[k'].None?
    decreases |outcomes| - from
  {
    if from < |outcomes| {
      FirstErrorIsFirst(outcomes, from + 1);
      if outcomes[from].None? && FirstError(outcomes, from + 1).Some? {
        var k :| from + 1 <= k < |outcomes| && outcomes[k] == FirstError(outcomes, from + 1)
          && forall k' :: from + 1 <= k' < k ==> outcomes[k'].None?;
        assert forall k' :: from <= k' < k ==> outcomes[k'].None?;
      }
    }
  }

  /** After the first `j` CRUD properties: those hold their mapped value, every other property its default. */
  ghost predicate CrudPrefixMapped(t: ModelType, columns: set<string>, row: Row, j: nat, model: Record)
    requires row.Keys == columns
    requires j <= |CrudProperties(t)|
  {
    && IsInstance(t, model)
    && forall i :: 0 <= i < |t.properties| ==>
         model[t.properties[i].name] ==
           if t.properties[i] in CrudProperties(t)[..j] then CrudValue(t.properties[i], columns, row)
           else t.properties[i].default
  }

  /** One turn of the inner loop keeps CrudPrefixMapped. */
  lemma CrudStep(t: ModelType, columns: set<string>, row: Row, j: nat, model: Record)
    requires UniqueNames(t.properties)
    requires row.Keys == columns
    requires j < |CrudProperties(t)|
    requires CrudPrefixMapped(t, columns, row, j, model)
    ensures var prop := CrudProperties(t)[j];
      CrudPrefixMapped(t, columns, row, j + 1,
        if prop.name in columns && row[prop.name] != DbNull then model[prop.name := row[prop.name]] else model)
  {
    var ps, props := t.properties, CrudProperties(t);
    var prop := props[j];
    assert prop in props;
    var next := if prop.name in columns && row[prop.name] != DbNull then model[prop.name := row[prop.name]] else model;
    assert props[..j + 1] == props[..j] + [prop];
    NameInNameSet(ps, prop);
    assert IsInstance(t, next);
    forall i | 0 <= i < |ps|
      ensures next[ps[i].name] ==
        if ps[i] in props[..j + 1] then CrudValue(ps[i], columns, row) else ps[i].default
    {
      if ps[i] != prop {
        assert ps[i].name != prop.name;
      }
    }
  }

  /** Before the loop: `new T()` has mapped no CRUD property yet. */
  lemma CrudStart(t: ModelType, columns: set<string>, row: Row)
    requires UniqueNames(t.properties)
    requires row.Keys == columns
    ensures CrudPrefixMapped(t, columns, row, 0, NewInstance(t))
  {
  }

  /** After the loop: every CRUD property is mapped, so the model is the CRUD mapping of the row. */
  lemma CrudDone(t: ModelType, columns: set<string>, row: Row, model: Record)
    requires row.Keys == columns
    requires CrudPrefixMapped(t, columns, row, |CrudProperties(t)|, model)
    ensures IsCrudMapping(t, columns, row, model)
  {
    var props := CrudProperties(t);
    assert props[..|props|] == props;
  }

  /** The inner loop of GetAllModels and GetModelById: `new T()`, then SetValue for each CRUD property with a value. */
  method MapCrudRow(t: ModelType, columns: set<string>, row: Row) returns (model: Record)
    requires UniqueNames(t.properties)
    requires row.Keys == columns
    ensures IsCrudMapping(t, columns, row, model)
  {
    var props := CrudProperties(t);
    model := NewInstance(t);
    CrudStart(t, columns, row);
    for j := 0 to |props|
      invariant CrudPrefixMapped(t, columns, row, j, model)
    {
      var prop := props[j];
      CrudStep(t, columns, row, j, model);
      if prop.name in columns && row[prop.name] != DbNull {
        model := model[prop.name := row[prop.name]];
      }
    }
    CrudDone(t, columns, row, model);
  }

  /** After the first `j` properties: those hold their Select<T> value, every other property its default. */
  ghost predicate AllPrefixMapped(t: ModelType, columns: set<string>, row: Row, toDateTime: Datum -> Result<Datum, Error>,
                                  j: nat, model: Record)
    requires row.Keys == columns
  {
    && IsInstance(t, model)
    && forall i :: 0 <= i < |t.properties| ==>
         if i < j then SelectValue(t.properties[i], columns, row, toDateTime) == Ok(model[t.properties[i].name])
         else model[t.properties[i].name] == t.properties[i].default
  }

  /** One turn of the Select<T> inner loop, on a property whose conversion succeeds, keeps AllPrefixMapped. */
  lemma AllStep(t: ModelType, columns: set<string>, row: Row, toDateTime: Datum -> Result<Datum, Error>,
                j: nat, model: Record)
    requires UniqueNames(t.properties)
    requires row.Keys == columns
    requires j < |t.properties|
    requires SelectValue(t.properties[j], columns, row, toDateTime).Ok?
    requires AllPrefixMapped(t, columns, row, toDateTime, j, model)
    ensures var prop := t.properties[j];
      AllPrefixMapped(t, columns, row, toDateTime, j + 1,
        if prop.name in columns && row[prop.name] != DbNull
        then model[prop.name := SelectValue(prop, columns, row, toDateTime).value] else model)
  {
    var ps := t.properties;
    var prop := ps[j];
    NameInNameSet(ps, prop);
  }

  /**
   * The inner loop of Select<T>: every public property, [NoCrud] ones
   * included, DateTime ones converted; the first conversion that fails
   * aborts the row.
   */
  method MapAllRow(t: ModelType, columns: set<string>, row: Row, toDateTime: Datum -> Result<Datum, Error>)
    returns (r: Result<Record, Error>)
    requires UniqueNames(t.properties)
    requires row.Keys == columns
    ensures RowError(t, columns, row, toDateTime).None? ==>
      r.Ok? && IsSelectMapping(t, columns, row, toDateTime, r.value)
    ensures RowError(t, columns, row, toDateTime).Some? ==> r == Err(RowError(t, columns, row, toDateTime).value)
  {
    var ps := t.properties;
    var model := NewInstance(t);
    for j := 0 to |ps|
      invariant AllPrefixMapped(t, columns, row, toDateTime, j, model)
      invariant RowErrorFrom(ps, columns, row, toDateTime, j) == RowError(t, columns, row, toDateTime)
    {
      var prop := ps[j];
      if prop.name in columns && row[prop.name] != DbNull {
        var v := Converted(prop, row[prop.name], toDateTime);
        if v.Err? {
          return Err(v.error);
        }
        AllStep(t, columns, row, toDateTime, j, model);
        model := model[prop.name := v.value];
      } else {
        AllStep(t, columns, row, toDateTime, j, model);
      }
    }
    return Ok(model);
  }

  /**
   * GetAllModels: run `SELECT * FROM tableName` and map every row, in row
   * order, one instance per row; a failing query is passed on.
   */
  method GetAllModels(t: ModelType, tableName: string, fetch: Statement -> Result<Table, Error>)
    returns (r: Result<seq<Record>, Error>)
    requires UniqueNames(t.properties)
    ensures var q := fetch(SelectAllStatement(tableName));
      && (q.Err? ==> r == Err(q.error))
      && (q.Ok? ==>
            && r.Ok? && |r.value| == |q.value.rows|
            && forall k :: 0 <= k < |r.value| ==>
                 IsCrudMapping(t, q.value.columns, q.value.rows[k], r.value[k]))
  {
    var q := fetch(SelectAllStatement(tableName));
    if q.Err? {
      return Err(q.error);
    }
    var table := q.value;
    var models: seq<Record> := [];
    for k := 0 to |table.rows|
      invariant |models| == k
      invariant forall n :: 0 <= n < k ==> IsCrudMapping(t, table.columns, table.rows[n], models[n])
    {
      var model := MapCrudRow(t, table.columns, table.rows[k]);
      models := models + [model];
    }
    return Ok(models);
  }

  /**
   * GetModelById: run `SELECT * FROM tableName WHERE idColumn = @Id`; no row
   * gives `default` (null, here None), otherwise the first row alone is mapped.
   */
  method GetModelById(t: ModelType, tableName: string, idColumn: string, id: Datum,
                      fetch: Statement -> Result<Table, Error>)
    returns (r: Result<Option<Record>, Error>)
    requires UniqueNames(t.properties)
    ensures var q := fetch(SelectByIdStatement(tableName, idColumn, id));
      && (q.Err? ==> r == Err(q.error))
      && (q.Ok? && q.value.rows == [] ==> r == Ok(None))
      && (q.Ok? && q.value.rows != [] ==>
            r.Ok? && r.value.Some? && IsCrudMapping(t, q.value.columns, q.value.rows[0], r.value.value))
  {
    var q := fetch(SelectByIdStatement(tableName, idColumn, id));
    if q.Err? {
      return Err(q.error);
    }
    var table := q.value;
    if |table.rows| == 0 {
      return Ok(None);
    }
    var model := MapCrudRow(t, table.columns, table.rows[0]);
    return Ok(Some(model));
  }

  /**
   * Select<T>: run the caller's statement and map every row, in row order,
   * over all public properties; the first row that fails to map aborts the call.
   */
  method Select(t: ModelType, query: Statement, fetch: Statement -> Result<Table, Error>,
                toDateTime: Datum -> Result<Datum, Error>)
    returns (r: Result<seq<Record>, Error>)
    requires UniqueNames(t.properties)
    ensures var q := fetch(query);
      && (q.Err? ==> r == Err(q.error))
      && (q.Ok? && TableError(t, q.value, toDateTime).Some? ==> r == Err(TableError(t, q.value, toDateTime).value))
      && (q.Ok? && TableError(t, q.value, toDateTime).None? ==>
            && r.Ok? && |r.value| == |q.value.rows|
            && forall k :: 0 <= k < |r.value| ==>
                 IsSelectMapping(t, q.value.columns, q.value.rows[k], toDateTime, r.value[k]))
  {
    var q := fetch(query);
    if q.Err? {
      return Err(q.error);
    }
    var table := q.value;
    var models: seq<Record> := [];
    for k := 0 to |table.rows|
      invariant |models| == k
      invariant forall n :: 0 <= n < k ==> IsSelectMapping(t, table.columns, table.rows[n], toDateTime, models[n])
      invariant FirstError(RowErrors(t, table, toDateTime), k) == TableError(t, table, toDateTime)
    {
      var model := MapAllRow(t, table.columns, table.rows[k], toDateTime);
      if model.Err? {
        return Err(model.error);
      }
      models := models + [model.value];
    }
    return Ok(models);
  }

  // ---------------------------------------------------------------- properties

  /** The CRUD mapping of a row is unique: the ensures of GetAllModels fix each instance completely. */
  lemma CrudMappingUnique(t: ModelType, columns: set<string>, row: Row, m1: Record, m2: Record)
    requires row.Keys == columns
    requires IsCrudMapping(t, columns, row, m1) && IsCrudMapping(t, columns, row, m2)
    ensures m1 == m2
  {
    var ps := t.properties;
    forall n | n in m1 ensures m1[n] == m2[n] {
      var i :| 0 <= i < |ps| && ps[i].name == n;
    }
  }

  /** A property is set from the row iff it is CRUD, the column exists and the cell is not DBNull; [NoCrud] keeps its default. */
  lemma CrudMappingSetsExactly(t: ModelType, columns: set<string>, row: Row, m: Record, p: Property)
    requires row.Keys == columns && p in t.properties
    requires IsCrudMapping(t, columns, row, m)
    ensures !p.noCrud && p.name in columns && row[p.name] != DbNull ==> m[p.name] == row[p.name]
    ensures p.noCrud || p.name !in columns || row[p.name] == DbNull ==> m[p.name] == p.default
  {
    var i :| 0 <= i < |t.properties| && t.properties[i] == p;
  }

  /** A column no property is named after changes nothing: extra columns are ignored. */
  lemma ExtraColumnIgnored(t: ModelType, columns: set<string>, row: Row, c: string, v: Datum, m: Record)
    requires row.Keys == columns && c !in columns
    requires c !in NameSet(t.properties)
    ensures IsCrudMapping(t, columns + {c}, row[c := v], m) <==> IsCrudMapping(t, columns, row, m)
  {
    var ps := t.properties;
    forall i | 0 <= i < |ps|
      ensures CrudValue(ps[i], columns + {c}, row[c := v]) == CrudValue(ps[i], columns, row)
    {
      assert ps[i].name in NameSet(ps);
    }
  }

  /**
   * Select<T> and GetAllModels agree on CRUD properties that are not DateTime,
   * and differ on [NoCrud] ones: Select<T> fills them from the row. Only a
   * DateTime property can make Select<T> fail.
   */
  lemma SelectVersusCrud(p: Property, columns: set<string>, row: Row, toDateTime: Datum -> Result<Datum, Error>)
    requires row.Keys == columns
    ensures !p.isDateTime ==> SelectValue(p, columns, row, toDateTime).Ok?
    ensures !p.noCrud && !p.isDateTime ==> SelectValue(p, columns, row, toDateTime) == Ok(CrudValue(p, columns, row))
    ensures p.noCrud && HasValue(columns, row, p.name) && !p.isDateTime ==>
      SelectValue(p, columns, row, toDateTime) == Ok(row[p.name]) && CrudValue(p, columns, row) == p.default
  {
  }
}
