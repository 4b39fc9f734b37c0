/**
 * The execution side of the helper against an abstract database state `S`.
 * `exec(s, st)` is what the database does with one command: it succeeds
 * with the new state and the affected-row count the driver reports, or it
 * raises an error (leaving whatever state it left). The batch paths,
 * ExecuteNonQuery(List<string>) and InsertModels, run their commands inside
 * one transaction: commit once after all succeed, roll back and rethrow on
 * the first failure.
 */
module Execution {

  import opened Wrappers
  import opened Sql
  import opened Schema
  import opened Statements

  datatype Step<S> = Done(store: S, affected: int) | Failed(store: S, error: Error)

  /**
   * Commands run one after another, stopping at the first failure; counts
   * are added up. An empty list leaves the state as it is, with count 0.
   */
  function Run<S>(exec: (S, Statement) -> Step<S>, s: S, stmts: seq<Statement>): (r: Step<S>)
    decreases |stmts|
    ensures stmts == [] ==> r == Done(s, 0)
  {
    if stmts == [] then Done(s, 0)
    else
      match Run(exec, s, stmts[..|stmts| - 1])
      case Failed(s1, e) => Failed(s1, e)
      case Done(s1, n) =>
        match exec(s1, stmts[|stmts| - 1])
        case Done(s2, m) => Done(s2, n + m)
        case Failed(s2, e) => Failed(s2, e)
  }

  /** Running `b` after the outcome `first` of an earlier run. */
  function AndThen<S>(exec: (S, Statement) -> Step<S>, first: Step<S>, b: seq<Statement>): Step<S>
  {
    match first
    case Failed(s1, e) => Failed(s1, e)
    case Done(s1, n) =>
      match Run(exec, s1, b)
      case Done(s2, m) => Done(s2, n + m)
      case Failed(s2, e) => Failed(s2, e)
  }

  /**
   * A failed run ends exactly as one of its commands failed: the commands
   * before it succeeded, and the error and the state are what that command
   * gives from the state they left. The converse of StopsAtFailure.
   */
  lemma {:induction false} FailureFromCommand<S>(exec: (S, Statement) -> Step<S>, s: S, stmts: seq<Statement>)
    requires Run(exec, s, stmts).Failed?
    ensures exists i, s1, n ::
      && 0 <= i < |stmts|
      && Run(exec, s, stmts[..i]) == Done(s1, n)
      && exec(s1, stmts[i]).Failed?
      && Run(exec, s, stmts) == exec(s1, stmts[i])
    decreases |stmts|
  {
    var pre := stmts[..|stmts| - 1];
    var first := Run(exec, s, pre);
    if first.Failed? {
      FailureFromCommand(exec, s, pre);
      var i, s1, n :|
        && 0 <= i < |pre|
        && Run(exec, s, pre[..i]) == Done(s1, n)
        && exec(s1, pre[i]).Failed?
        && first == exec(s1, pre[i]);
      assert pre[..i] == stmts[..i] && pre[i] == stmts[i];
    } else {
      assert Run(exec, s, stmts) == exec(first.store, stmts[|stmts| - 1]);
      assert stmts[..|stmts| - 1] == pre;
    }
  }

  /** A run of one command is that command. */
  lemma RunOne<S>(exec: (S, Statement) -> Step<S>, s: S, st: Statement)
    ensures Run(exec, s, [st]) == exec(s, st)
  {
    assert [st][..0] == [];
  }

  /** Running `a + b` is running `a`, then `b` from where `a` left off: states thread through, counts add up, a failure stops everything. */
  lemma {:induction false} RunConcat<S>(exec: (S, Statement) -> Step<S>, s: S, a: seq<Statement>, b: seq<Statement>)
    ensures Run(exec, s, a + b) == AndThen(exec, Run(exec, s, a), b)
    decreases |b|
  {
    if b == [] {
      assert a + b == a;
    } else {
      var ab := a + b;
      var b' := b[..|b| - 1];
      assert ab[..|ab| - 1] == a + b';
      assert ab[|ab| - 1] == b[|b| - 1];
      RunConcat(exec, s, a, b');
    }
  }

  /** A command that fails after `stmts[..i]` succeeded makes the whole run fail with its error. */
  lemma {:induction false} StopsAtFailure<S>(exec: (S, Statement) -> Step<S>, s: S, stmts: seq<Statement>, i: nat, s1: S, n: int)
    requires i < |stmts|
    requires Run(exec, s, stmts[..i]) == Done(s1, n)
    requires exec(s1, stmts[i]).Failed?
    ensures Run(exec, s, stmts).Failed? && Run(exec, s, stmts).error == exec(s1, stmts[i]).error
    decreases |stmts|
  {
    var pre := stmts[..|stmts| - 1];
    if i == |stmts| - 1 {
      assert pre == stmts[..i];
    } else {
      assert pre[..i] == stmts[..i] && pre[i] == stmts[i];
      StopsAtFailure(exec, s, pre, i, s1, n);
    }
  }

  /** Extending a successful run by one successful command adds its count. */
  lemma RunSnoc<S>(exec: (S, Statement) -> Step<S>, s: S, stmts: seq<Statement>, i: nat, s1: S, n: int)
    requires i < |stmts|
    requires Run(exec, s, stmts[..i]) == Done(s1, n)
    requires exec(s1, stmts[i]).Done?
    ensures Run(exec, s, stmts[..i + 1]) == Done(exec(s1, stmts[i]).store, n + exec(s1, stmts[i]).affected)
  {
    assert stmts[..i + 1][..i] == stmts[..i];
  }

  /**
   * The transaction around a run: on success the run's state is committed and
   * its total returned; on any failure the state before the call is restored
   * and the failing command's error is rethrown.
   */
  function Transaction<S>(exec: (S, Statement) -> Step<S>, s: S, stmts: seq<Statement>): (r: Step<S>)
    ensures r.Failed? <==> Run(exec, s, stmts).Failed?
    ensures r.Failed? ==> r.store == s && r.error == Run(exec, s, stmts).error
    ensures r.Done? ==> r == Run(exec, s, stmts)
  {
    match Run(exec, s, stmts)
    case Done(s1, n) => Done(s1, n)
    case Failed(_, e) => Failed(s, e)
  }

  /** ExecuteNonQuery(List<string>): each query on the shared command, its parameters cleared. */
  function PlainCommands(queries: seq<string>): (r: seq<Statement>)
    ensures |r| == |queries|
    ensures forall k :: 0 <= k < |r| ==> r[k] == Statement(queries[k], [])
  {
    seq(|queries|, k requires 0 <= k < |queries| => Statement(queries[k], []))
  }

  /**
   * ExecuteNonQuery(List<string>): a null or empty list is rejected before
   * the database is touched; otherwise the queries run in list order in one
   * transaction, all-or-nothing.
   */
  method ExecuteNonQueries<S>(exec: (S, Statement) -> Step<S>, store: S, queries: Option<seq<string>>)
    returns (r: Step<S>)
    ensures queries.None? || queries.value == [] ==>
      r == Failed(store, Argument("Queries must not be null or empty.", None))
    ensures queries.Some? && queries.value != [] ==>
      r == Transaction(exec, store, PlainCommands(queries.value))
  {
    if queries.None? || |queries.value| == 0 {
      return Failed(store, Argument("Queries must not be null or empty.", None));
    }
    var qs := queries.value;
    ghost var stmts := PlainCommands(qs);
    var s := store;
    var rowsAffected := 0;
    var command := Statement("", []);
    for i := 0 to |qs|
      invariant Run(exec, store, stmts[..i]) == Done(s, rowsAffected)
    {
      command := Statement(qs[i], []);
      match exec(s, command)
      case Failed(_, e) =>
        StopsAtFailure(exec, store, stmts, i, s, rowsAffected);
        return Failed(store, e);
      case Done(s1, n) =>
        RunSnoc(exec, store, stmts, i, s, rowsAffected);
        s, rowsAffected := s1, rowsAffected + n;
    }
    assert stmts[..|qs|] == stmts;
    return Done(s, rowsAffected);
  }

  /** InsertModels: one INSERT text, re-bound to each model in list order. */
  function InsertCommands(t: ModelType, tableName: string, models: seq<Record>): (r: seq<Statement>)
    requires forall k :: 0 <= k < |models| ==> IsInstance(t, models[k])
    ensures |r| == |models|
    ensures forall k :: 0 <= k < |r| ==>
      r[k].text == InsertText(t, tableName) && r[k].parameters == InsertParameters(t, models[k])
  {
    seq(|models|, k requires 0 <= k < |models| => InsertStatement(t, tableName, models[k]))
  }

  /**
   * InsertModels: a null or empty list is rejected before the database is
   * touched; otherwise one INSERT per model, in list order, in one
   * transaction, all-or-nothing.
   */
  method InsertModels<S>(exec: (S, Statement) -> Step<S>, store: S, t: ModelType,
                         models: Option<seq<Record>>, tableName: string)
    returns (r: Step<S>)
    requires models.Some? ==> forall k :: 0 <= k < |models.value| ==> IsInstance(t, models.value[k])
    ensures models.None? || models.value == [] ==>
      r == Failed(store, Argument("Models must not be null or empty.", None))
    ensures models.Some? && models.value != [] ==>
      r == Transaction(exec, store, InsertCommands(t, tableName, models.value))
  {
    if models.None? || |models.value| == 0 {
      return Failed(store, Argument("Models must not be null or empty.", None));
    }
    var ms := models.value;
    ghost var stmts := InsertCommands(t, tableName, ms);
    var s := store;
    var rowsAffected := 0;
    var command := Statement(InsertText(t, tableName), []);
    for i := 0 to |ms|
      invariant command.text == InsertText(t, tableName)
      invariant Run(exec, store, stmts[..i]) == Done(s, rowsAffected)
    {
      command := command.(parameters := InsertParameters(t, ms[i]));
      assert command == stmts[i];
      match exec(s, command)
      case Failed(_, e) =>
        StopsAtFailure(exec, store, stmts, i, s, rowsAffected);
        return Failed(store, e);
      case Done(s1, n) =>
        RunSnoc(exec, store, stmts, i, s, rowsAffected);
        s, rowsAffected := s1, rowsAffected + n;
    }
    assert stmts[..|ms|] == stmts;
    return Done(s, rowsAffected);
  }

  /** InsertModel: the INSERT statement, run once on its own, outside any transaction. */
  function InsertModel<S>(exec: (S, Statement) -> Step<S>, store: S, t: ModelType, model: Record, tableName: string): Step<S>
    requires IsInstance(t, model)
  {
    exec(store, InsertStatement(t, tableName, model))
  }

  /**
   * InsertModels on a one-model list and InsertModel on that model send the
   * same statement: they agree on success and on the error; only the batch
   * rolls the state back on failure.
   */
  lemma InsertModelsOfOne<S>(exec: (S, Statement) -> Step<S>, store: S, t: ModelType, model: Record, tableName: string)
    requires IsInstance(t, model)
    ensures var one := InsertModel(exec, store, t, model, tableName);
      var batch := Transaction(exec, store, InsertCommands(t, tableName, [model]));
      && (one.Done? ==> batch == one)
      && (one.Failed? ==> batch == Failed(store, one.error))
  {
    var stmts := InsertCommands(t, tableName, [model]);
    assert stmts == [InsertStatement(t, tableName, model)];
    RunOne(exec, store, stmts[0]);
  }

  /** A one-query batch runs that query with no parameters; only the batch rolls back on failure. */
  lemma OneQueryBatch<S>(exec: (S, Statement) -> Step<S>, store: S, query: string)
    ensures var one := exec(store, Statement(query, []));
      var batch := Transaction(exec, store, PlainCommands([query]));
      && (one.Done? ==> batch == one)
      && (one.Failed? ==> batch == Failed(store, one.error))
  {
    var stmts := PlainCommands([query]);
    assert stmts == [Statement(query, [])];
    RunOne(exec, store, stmts[0]);
  }

  /**
   * UpdateModel: a null model, a null or empty id column, or an id column no
   * public property is named after fails before any statement reaches the
   * database; otherwise the UPDATE statement runs once.
   */
  function UpdateModel<S>(exec: (S, Statement) -> Step<S>, store: S, t: ModelType, model: Option<Record>,
                          tableName: string, idColumn: Option<string>): (r: Step<S>)
    requires model.Some? ==> IsInstance(t, model.value)
    ensures model.None? || idColumn.None? || idColumn.value == "" || idColumn.value !in NameSet(t.properties) ==>
      r.Failed? && r.store == store && r.error.ArgumentNull? == model.None?
    ensures var u := UpdateStatement(t, model, tableName, idColumn);
      && (u.Err? ==> r == Failed(store, u.error))
      && (u.Ok? ==> r == exec(store, u.value))
  {
    match UpdateStatement(t, model, tableName, idColumn)
    case Err(e) => Failed(store, e)
    case Ok(st) => exec(store, st)
  }

  /** DeleteModel: the DELETE statement, run once. */
  function DeleteModel<S>(exec: (S, Statement) -> Step<S>, store: S, tableName: string, idColumn: string, id: Datum): Step<S>
  {
    exec(store, DeleteStatement(tableName, idColumn, id))
  }
}
