/**
 * The statement builder: the SQL text and the parameter list that
 * InsertModel, InsertModels, UpdateModel, GetModelById, GetAllModels and
 * DeleteModel hand to the database. Table and column names are pasted
 * into the text verbatim, as the helper does.
 */
module Statements {

  import opened Wrappers
  import opened Sql
  import opened Schema

  /** `string.Join(sep, parts)`. */
  function Join(sep: string, parts: seq<string>): string
  {
    if |parts| == 0 then ""
    else if |parts| == 1 then parts[0]
    else parts[0] + sep + Join(sep, parts[1..])
  }

  /** Joining two parts puts the separator between them. */
  lemma JoinPair(sep: string, a: string, b: string)
    ensures Join(sep, [a, b]) == a + sep + b
  {
    assert [a, b][1..] == [b];
  }

  /** `$"@{name}"`, for every name in order. */
  function Placeholders(cols: seq<string>): (r: seq<string>)
    ensures |r| == |cols|
    ensures forall k :: 0 <= k < |cols| ==> r[k] == "@" + cols[k]
  {
    seq(|cols|, k requires 0 <= k < |cols| => "@" + cols[k])
  }

  /** Two placeholders are equal only when their names are. */
  lemma PlaceholderInjective(a: string, b: string)
    requires "@" + a == "@" + b
    ensures a == b
  {
    assert a == ("@" + a)[1..];
    assert b == ("@" + b)[1..];
  }

  // ---------------------------------------------------------------- INSERT

  predicate NotIdentity(p: Property)
  {
    !p.identity
  }

  /** The properties an INSERT writes: the CRUD properties without [Identity]. */
  function InsertProperties(t: ModelType): (r: seq<Property>)
    ensures forall p {:trigger p in r} :: p in r <==> p in t.properties && !p.noCrud && !p.identity
  {
    Where(CrudProperties(t), NotIdentity)
  }

  /** The INSERT column list: the names of the INSERT properties, in order. */
  function InsertColumns(t: ModelType): (cols: seq<string>)
    ensures |cols| == |InsertProperties(t)|
  {
    Names(InsertProperties(t))
  }

  /** A name is an INSERT column iff some property of that name is neither [NoCrud] nor [Identity]. */
  lemma InsertColumnsExactly(t: ModelType, n: string)
    ensures n in InsertColumns(t) <==>
      exists p :: p in t.properties && !p.noCrud && !p.identity && p.name == n
  {
    var ps := InsertProperties(t);
    if n in InsertColumns(t) {
      var k :| 0 <= k < |ps| && Names(ps)[k] == n;
      assert ps[k] in ps;
    }
    if exists p :: p in t.properties && !p.noCrud && !p.identity && p.name == n {
      var p :| p in t.properties && !p.noCrud && !p.identity && p.name == n;
      assert p in ps;
      var k :| 0 <= k < |ps| && ps[k] == p;
      assert Names(ps)[k] == n;
    }
  }

  function InsertText(t: ModelType, tableName: string): string
  {
    var cols := InsertColumns(t);
    "INSERT INTO " + tableName + " (" + Join(", ", cols) + ") VALUES (" + Join(", ", Placeholders(cols)) + ")"
  }

  /** The INSERT text is built from the column list alone. */
  lemma InsertTextOf(t: ModelType, tableName: string, cols: seq<string>)
    requires InsertColumns(t) == cols
    ensures InsertText(t, tableName) ==
      "INSERT INTO " + tableName + " (" + Join(", ", cols) + ") VALUES (" + Join(", ", Placeholders(cols)) + ")"
  {
  }

  /**
   * The parameters bound for one model: one per INSERT column, in column order,
   * named by the column's placeholder, carrying the property's value or DBNull
   * in place of null, so no column is ever left unbound.
   */
  function InsertParameters(t: ModelType, model: Record): (r: seq<Param>)
    requires IsInstance(t, model)
    ensures |r| == |InsertColumns(t)|
    ensures forall k :: 0 <= k < |r| ==>
      var col := InsertColumns(t)[k];
      col in model && r[k] == Param("@" + col, Coalesce(model[col]))
    ensures forall k :: 0 <= k < |r| ==> r[k].value != ClrNull
  {
    var ps := InsertProperties(t);
    assert forall k :: 0 <= k < |ps| ==> ps[k].name in model by {
      forall k | 0 <= k < |ps| ensures ps[k].name in model {
        assert ps[k] in ps;
        NameInNameSet(t.properties, ps[k]);
      }
    }
    seq(|ps|, k requires 0 <= k < |ps| => Param("@" + ps[k].name, Coalesce(model[ps[k].name])))
  }

  /**
   * The statement InsertModel runs, and InsertModels runs once per model:
   * the INSERT text, and one parameter per placeholder of the VALUES list,
   * named by that placeholder, in the same order.
   */
  function InsertStatement(t: ModelType, tableName: string, model: Record): (r: Statement)
    requires IsInstance(t, model)
    ensures r.text == InsertText(t, tableName)
    ensures var phs := Placeholders(InsertColumns(t));
      |r.parameters| == |phs| && forall k :: 0 <= k < |phs| ==> r.parameters[k].name == phs[k]
  {
    Statement(InsertText(t, tableName), InsertParameters(t, model))
  }

  /**
   * The column list and the VALUES list line up: same length, and the k-th
   * placeholder in the text is the k-th column prefixed with "@" and is the
   * name of the k-th parameter.
   */
  lemma InsertShape(t: ModelType, tableName: string, model: Record)
    requires IsInstance(t, model)
    ensures var cols := InsertColumns(t);
      var phs := Placeholders(cols);
      var st := InsertStatement(t, tableName, model);
      && st.text == "INSERT INTO " + tableName + " (" + Join(", ", cols) + ") VALUES (" + Join(", ", phs) + ")"
      && |phs| == |cols| == |st.parameters|
      && forall k :: 0 <= k < |cols| ==> phs[k] == "@" + cols[k] && st.parameters[k].name == phs[k]
  {
  }

  /** An empty column list is not rejected: the text is `INSERT INTO t () VALUES ()`. */
  lemma EmptyInsert(t: ModelType, tableName: string)
    requires forall p :: p in t.properties ==> p.noCrud || p.identity
    ensures InsertText(t, tableName) == "INSERT INTO " + tableName + " () VALUES ()"
  {
    WhereDropsAll(CrudProperties(t), NotIdentity);
  }

  /** A [NoCrud] or [Identity] property never appears in the INSERT column list. */
  lemma ExcludedNeverInserted(t: ModelType, p: Property)
    requires UniqueNames(t.properties)
    requires p in t.properties && (p.noCrud || p.identity)
    ensures p.name !in InsertColumns(t)
  {
    forall q | q in t.properties && q.name == p.name ensures q == p {
      SameNameSameProperty(t.properties, p, q);
    }
    InsertColumnsExactly(t, p.name);
  }

  /** Distinct column names make distinct placeholder names. */
  lemma PlaceholdersUnique(ps: seq<Property>)
    requires UniqueNames(ps)
    ensures forall i, j :: 0 <= i < j < |ps| ==> Placeholders(Names(ps))[i] != Placeholders(Names(ps))[j]
  {
    forall i, j | 0 <= i < j < |ps| ensures Placeholders(Names(ps))[i] != Placeholders(Names(ps))[j] {
      if Placeholders(Names(ps))[i] == Placeholders(Names(ps))[j] {
        PlaceholderInjective(ps[i].name, ps[j].name);
      }
    }
  }

  /** Every INSERT parameter has its own name. */
  lemma InsertParameterNamesUnique(t: ModelType, tableName: string, model: Record)
    requires UniqueNames(t.properties) && IsInstance(t, model)
    ensures var ps := InsertStatement(t, tableName, model).parameters;
      forall i, j :: 0 <= i < j < |ps| ==> ps[i].name != ps[j].name
  {
    WhereUnique(t.properties, IsCrud);
    WhereUnique(CrudProperties(t), NotIdentity);
    PlaceholdersUnique(InsertProperties(t));
  }

  // ---------------------------------------------------------------- UPDATE

  /** Which CRUD properties an UPDATE sets: those without [Identity] whose name is not the id column. */
  function SetFilter(idColumn: string): Property -> bool
  {
    (p: Property) => !p.identity && p.name != idColumn
  }

  /** The properties an UPDATE sets: CRUD, not [Identity], and not the id column itself. */
  function UpdateProperties(t: ModelType, idColumn: string): (r: seq<Property>)
    ensures forall p {:trigger p in r} :: p in r <==>
      p in t.properties && !p.noCrud && !p.identity && p.name != idColumn
  {
    Where(CrudProperties(t), SetFilter(idColumn))
  }

  /** `$"{name} = @{name}"`, for every name in order. */
  function Assignments(cols: seq<string>): (r: seq<string>)
    ensures |r| == |cols|
    ensures forall k :: 0 <= k < |cols| ==> r[k] == cols[k] + " = @" + cols[k]
  {
    seq(|cols|, k requires 0 <= k < |cols| => cols[k] + " = @" + cols[k])
  }

  /** The SET clause: the assignments joined by ", ". */
  function SetClause(cols: seq<string>): string
  {
    Join(", ", Assignments(cols))
  }

  /** The UPDATE text: `UPDATE t SET c = @c, ... WHERE id = @id`. */
  function UpdateText(tableName: string, cols: seq<string>, idColumn: string): (r: string)
    ensures "UPDATE " + tableName + " SET " <= r
    ensures var w := " WHERE " + idColumn + " = @" + idColumn;
      |w| <= |r| && r[|r| - |w|..] == w
  {
    "UPDATE " + tableName + " SET " + SetClause(cols) + " WHERE " + idColumn + " = @" + idColumn
  }

  /**
   * The UPDATE parameters: one per SET column, in order, null coalesced to
   * DBNull, then the id parameter carrying the id property's raw value.
   */
  function UpdateParameters(t: ModelType, m: Record, idColumn: string): (r: seq<Param>)
    requires IsInstance(t, m) && idColumn in m
    ensures var cols := Names(UpdateProperties(t, idColumn));
      && |r| == |cols| + 1
      && (forall k :: 0 <= k < |cols| ==> cols[k] in m && r[k] == Param("@" + cols[k], Coalesce(m[cols[k]])))
      && r[|cols|] == Param("@" + idColumn, m[idColumn])
  {
    var ups := UpdateProperties(t, idColumn);
    assert forall k :: 0 <= k < |ups| ==> ups[k].name in m by {
      forall k | 0 <= k < |ups| ensures ups[k].name in m {
        assert ups[k] in ups;
        NameInNameSet(t.properties, ups[k]);
      }
    }
    seq(|ups|, k requires 0 <= k < |ups| => Param("@" + ups[k].name, Coalesce(m[ups[k].name])))
      + [Param("@" + idColumn, m[idColumn])]
  }

  /**
   * UpdateModel up to execution: the argument checks, in the order the helper
   * makes them, then the UPDATE statement.
   */
  function UpdateStatement(t: ModelType, model: Option<Record>, tableName: string, idColumn: Option<string>)
    : (r: Result<Statement, Error>)
    requires model.Some? ==> IsInstance(t, model.value)
    ensures r.Err? <==>
      model.None? || idColumn.None? || idColumn.value == "" || idColumn.value !in NameSet(t.properties)
    ensures model.None? ==> r == Err(ArgumentNull("model"))
    ensures model.Some? && (idColumn.None? || idColumn.value == "") ==>
      r == Err(Argument("Property name cannot be null or empty.", Some("idColumn")))
    ensures model.Some? && idColumn.Some? && idColumn.value != "" && idColumn.value !in NameSet(t.properties) ==>
      r == Err(Argument("Property '" + idColumn.value + "' not found on type '" + t.fullName + "'.", None))
    ensures r.Ok? ==> idColumn.value in model.value
  {
    if model.None? then
      Err(ArgumentNull("model"))
    else if idColumn.None? || idColumn.value == "" then
      Err(Argument("Property name cannot be null or empty.", Some("idColumn")))
    else if idColumn.value !in NameSet(t.properties) then
      Err(Argument("Property '" + idColumn.value + "' not found on type '" + t.fullName + "'.", None))
    else
      var id := idColumn.value;
      Ok(Statement(
        UpdateText(tableName, Names(UpdateProperties(t, id)), id),
        UpdateParameters(t, model.value, id)))
  }

  /**
   * The SET clause never names a [NoCrud] or [Identity] property, nor the id
   * column, and every other property is set.
   */
  lemma UpdateSetColumns(t: ModelType, idColumn: string, n: string)
    ensures n in Names(UpdateProperties(t, idColumn)) <==>
      n != idColumn && exists p :: p in t.properties && p.name == n && !p.noCrud && !p.identity
  {
    var ups := UpdateProperties(t, idColumn);
    if n in Names(ups) {
      var k :| 0 <= k < |ups| && Names(ups)[k] == n;
      assert ups[k] in ups;
    }
    if n != idColumn && exists p :: p in t.properties && p.name == n && !p.noCrud && !p.identity {
      var p :| p in t.properties && p.name == n && !p.noCrud && !p.identity;
      assert p in ups;
      var k :| 0 <= k < |ups| && ups[k] == p;
      assert Names(ups)[k] == n;
    }
  }

  /**
   * The id column is looked up among all public properties: a [NoCrud] or
   * [Identity] one is found, and its value is bound to the id parameter.
   */
  lemma TaggedIdColumnFound(t: ModelType, model: Record, tableName: string, p: Property)
    requires IsInstance(t, model) && p in t.properties && p.name != ""
    ensures p.name in model
    ensures var r := UpdateStatement(t, Some(model), tableName, Some(p.name));
      r.Ok? && r.value.parameters[|r.value.parameters| - 1] == Param("@" + p.name, model[p.name])
  {
    NameInNameSet(t.properties, p);
  }

  /**
   * An empty SET list is not rejected either: when no property other than
   * the id column can be set, the text is `UPDATE t SET  WHERE id = @id`.
   */
  lemma EmptyUpdate(t: ModelType, tableName: string, idColumn: string)
    requires forall p :: p in t.properties ==> p.noCrud || p.identity || p.name == idColumn
    ensures UpdateText(tableName, Names(UpdateProperties(t, idColumn)), idColumn) ==
      "UPDATE " + tableName + " SET " + " WHERE " + idColumn + " = @" + idColumn
  {
    WhereDropsAll(CrudProperties(t), SetFilter(idColumn));
    assert Assignments([]) == [];
  }

  /** Every UPDATE parameter has its own name, the id parameter included. */
  lemma UpdateParameterNamesUnique(t: ModelType, model: Option<Record>, tableName: string, idColumn: Option<string>)
    requires UniqueNames(t.properties)
    requires model.Some? ==> IsInstance(t, model.value)
    requires UpdateStatement(t, model, tableName, idColumn).Ok?
    ensures var ps := UpdateStatement(t, model, tableName, idColumn).value.parameters;
      forall i, j :: 0 <= i < j < |ps| ==> ps[i].name != ps[j].name
  {
    var id := idColumn.value;
    var ups := UpdateProperties(t, id);
    var cols := Names(ups);
    var ps := UpdateParameters(t, model.value, id);
    WhereUnique(t.properties, IsCrud);
    WhereUnique(CrudProperties(t), SetFilter(id));
    PlaceholdersUnique(ups);
    forall i, j | 0 <= i < j < |ps| ensures ps[i].name != ps[j].name {
      assert i < |ups| ==> ups[i] in ups;
      if j < |cols| {
        assert ps[i].name == Placeholders(cols)[i] && ps[j].name == Placeholders(cols)[j];
      } else if ps[i].name == ps[j].name {
        PlaceholderInjective(cols[i], id);
      }
    }
  }

  // ---------------------------------------------------- SELECT and DELETE

  /** The query GetAllModels runs: no parameters, every column. */
  function SelectAllStatement(tableName: string): (r: Statement)
    ensures r.text == "SELECT * FROM " + tableName && r.parameters == []
  {
    Statement("SELECT * FROM " + tableName, [])
  }

  /** The filter GetModelById and DeleteModel share. */
  function WhereId(idColumn: string): string
  {
    " WHERE " + idColumn + " = @Id"
  }

  /** The query GetModelById runs: the id value is bound as given, without coalescing. */
  function SelectByIdStatement(tableName: string, idColumn: string, id: Datum): (r: Statement)
    ensures "SELECT * FROM " + tableName <= r.text
    ensures var w := " WHERE " + idColumn + " = @Id";
      |w| <= |r.text| && r.text[|r.text| - |w|..] == w
    ensures r.parameters == [Param("@Id", id)]
  {
    Statement("SELECT * FROM " + tableName + WhereId(idColumn), [Param("@Id", id)])
  }

  /** The statement DeleteModel runs. */
  function DeleteStatement(tableName: string, idColumn: string, id: Datum): (r: Statement)
    ensures "DELETE FROM " + tableName <= r.text
    ensures var w := " WHERE " + idColumn + " = @Id";
      |w| <= |r.text| && r.text[|r.text| - |w|..] == w
    ensures r.parameters == [Param("@Id", id)]
  {
    Statement("DELETE FROM " + tableName + WhereId(idColumn), [Param("@Id", id)])
  }

  /**
   * GetModelById and DeleteModel address the same rows: both end in
   * `WHERE idColumn = @Id` and bind exactly one parameter, `@Id`, to the id as given.
   */
  lemma ByIdAndDeleteAgree(tableName: string, idColumn: string, id: Datum)
    ensures var s := SelectByIdStatement(tableName, idColumn, id);
      var d := DeleteStatement(tableName, idColumn, id);
      var w := " WHERE " + idColumn + " = @Id";
      && s.text == "SELECT * FROM " + tableName + w
      && d.text == "DELETE FROM " + tableName + w
      && s.parameters == d.parameters == [Param("@Id", id)]
  {
  }
}
