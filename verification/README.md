# SqlServerHelper, modelled in Dafny

`TA.DataAccess.SqlServer` is a small ADO.NET helper. It turns plain C# model
classes into SQL statements and turns query results back into model
instances, using reflection:

- `GetCrudProperties<T>` lists the public properties that do not carry `[NoCrud]`.
- `InsertModel` and `InsertModels` write those properties, except the `[Identity]` ones.
- `UpdateModel` sets them, except the `[Identity]` ones and the id column, `WHERE idColumn = @idColumn`.
- `GetModelById` and `DeleteModel` address rows by `WHERE idColumn = @Id`.
- `GetAllModels` and `GetModelById` copy non-null cells into the CRUD properties of fresh instances.
- `Select<T>` copies into every public property and converts `DateTime` ones.
- `ExecuteNonQuery(List<string>)` and `InsertModels` run their commands in one transaction: commit after all succeed, roll back and rethrow on the first failure.

The model replaces reflection with an explicit, ordered list of property
descriptors (`Schema.Property`: name, `[NoCrud]`, `[Identity]`, whether the
type is `DateTime`, and the value `new T()` leaves in it). A model instance is
a map from property name to value. Values distinguish a C# `null`
(`ClrNull`) from `DBNull.Value` (`DbNull`), because the helper binds
`value ?? DBNull.Value` in INSERT and SET parameters but binds the UPDATE id
parameter and the `@Id` parameter as they are.

The database is abstract. Running a query and filling a `DataTable` is a
parameter `fetch: Statement -> Result<Table, Error>`. Executing one command
is a parameter `exec: (S, Statement) -> Step<S>` over a store of any type
`S`: it either succeeds with a new store and the affected-row count, or
fails with an error. `Convert.ToDateTime` is a parameter `toDateTime`: it
returns a value, or the `InvalidCastException` or `FormatException` it throws
on a cell it cannot convert.

Modules, one per file:

- `Wrappers` (`wrappers.dfy`): `Option` and `Result`.
- `Sql` (`sql.dfy`): values, parameters, statements, rows and tables, errors.
- `Schema` (`schema.dfy`): property descriptors, the order-keeping filter `Where`, `GetCrudProperties`, `new T()`.
- `Statements` (`statements.dfy`): the INSERT, UPDATE, SELECT and DELETE builders and their argument checks.
- `Mapping` (`mapping.dfy`): the row mappers, as methods with loops over rows and properties.
- `Execution` (`execution.dfy`): the transactional batch paths, as methods with loops over an abstract store.
- `TestModelExample` (`testmodel.dfy`): the demo program's `TestModel` worked through the builders and mappers.

Behaviour kept as the code has it:

- `GetModelById` returns `default` when no row matches, which for a class is `null` (`None` here), not a fresh instance.
- An INSERT whose column list is empty is not rejected; its text is `INSERT INTO t () VALUES ()` (`Statements.EmptyInsert`).
- An UPDATE with nothing to set is not rejected either; its text is `UPDATE t SET  WHERE id = @id` (`Statements.EmptyUpdate`).
- The id column of `UpdateModel` is looked up among all public properties, so a `[NoCrud]` or `[Identity]` property is accepted (`Statements.TaggedIdColumnFound`).
- The `ArgumentException` for an unknown id column names no parameter; the one for a null or empty id column names `idColumn`.
- `Select<T>` fills `[NoCrud]` properties too; `GetAllModels` and `GetModelById` never do.

## Model

| member | source | states |
|---|---|---|
| Sql.Coalesce | src/TA.DataAccess.SqlServer/SqlServerHelper.cs:125 | `value ?? DBNull.Value` binds a C# null as DBNull, leaves every non-null value unchanged, and is never a C# null |
| Schema.Where | src/TA.DataAccess.SqlServer/SqlServerHelper.cs:251 | the LINQ filter keeps exactly the elements that satisfy the predicate and is never longer than its input |
| Schema.WhereConcat | src/TA.DataAccess.SqlServer/SqlServerHelper.cs:251 | filtering distributes over concatenation, so relative order is kept |
| Schema.CrudProperties | src/TA.DataAccess.SqlServer/SqlServerHelper.cs:248-252 | a property is in the CRUD list iff it is a public property of the type without `[NoCrud]` |
| Schema.CrudPropertiesInOrder | src/TA.DataAccess.SqlServer/SqlServerHelper.cs:248-252 | declaration order is kept: the CRUD list of `a + b` is that of `a` followed by that of `b` |
| Schema.UntaggedAllKept | src/TA.DataAccess.SqlServer/SqlServerHelper.cs:248-252 | when no property carries `[NoCrud]`, the CRUD list is the whole property list, in order |
| Schema.NewInstance | src/TA.DataAccess.SqlServer/SqlServerHelper.cs:181 | `new T()` has a value for exactly the type's properties, each at its default |
| Statements.InsertProperties | src/TA.DataAccess.SqlServer/SqlServerHelper.cs:119 | a property is written by INSERT iff it carries neither `[NoCrud]` nor `[Identity]` |
| Statements.InsertColumnsExactly | src/TA.DataAccess.SqlServer/SqlServerHelper.cs:119-120 | a name is in the INSERT column list iff some property of that name carries neither attribute |
| Statements.ExcludedNeverInserted | src/TA.DataAccess.SqlServer/SqlServerHelper.cs:119-120 | a `[NoCrud]` or `[Identity]` property's name is never an INSERT column |
| Statements.InsertStatement | src/TA.DataAccess.SqlServer/SqlServerHelper.cs:119-125 | the statement is the INSERT text with one parameter per VALUES placeholder, named by it, in the same order |
| Statements.InsertShape | src/TA.DataAccess.SqlServer/SqlServerHelper.cs:119-125 | the text is `INSERT INTO t (cols) VALUES (placeholders)`; columns, placeholders and parameters have one length; the k-th placeholder is `@` + the k-th column and names the k-th parameter |
| Statements.InsertParameters | src/TA.DataAccess.SqlServer/SqlServerHelper.cs:125 | one parameter per INSERT column, in column order, named `@col`, carrying the model's value or DBNull for null, so no null is left out and none is bound as a C# null |
| Statements.InsertParameterNamesUnique | src/TA.DataAccess.SqlServer/SqlServerHelper.cs:125 | no two INSERT parameters share a name |
| Statements.EmptyInsert | src/TA.DataAccess.SqlServer/SqlServerHelper.cs:119-123 | when every property carries `[NoCrud]` or `[Identity]`, the text is `INSERT INTO t () VALUES ()`; it is not rejected |
| Statements.UpdateProperties | src/TA.DataAccess.SqlServer/SqlServerHelper.cs:233 | a property is SET iff it carries neither attribute and is not the id column |
| Statements.UpdateSetColumns | src/TA.DataAccess.SqlServer/SqlServerHelper.cs:233-234 | a name is in the SET clause iff it differs from the id column and some property of that name carries neither attribute |
| Statements.UpdateText | src/TA.DataAccess.SqlServer/SqlServerHelper.cs:235 | the text starts `UPDATE t SET ` and ends with the clause `WHERE idColumn = @idColumn` |
| Statements.EmptyUpdate | src/TA.DataAccess.SqlServer/SqlServerHelper.cs:233-235 | when no property but the id column can be set, the text is `UPDATE t SET  WHERE id = @id`; it is not rejected |
| Statements.UpdateParameters | src/TA.DataAccess.SqlServer/SqlServerHelper.cs:236-237 | the SET parameters in SET-column order, `@col` with the value or DBNull, then exactly one `@idColumn` parameter with the id property's value, not coalesced |
| Statements.UpdateStatement | src/TA.DataAccess.SqlServer/SqlServerHelper.cs:220-237 | it fails iff the model is null, the id column is null or empty, or no public property has that name; each failure is the exception the code throws, with its message and parameter name, checked in the code's order |
| Statements.TaggedIdColumnFound | src/TA.DataAccess.SqlServer/SqlServerHelper.cs:228-237 | any public property is accepted as id column, `[NoCrud]` and `[Identity]` ones included, and its value is the last parameter |
| Statements.UpdateParameterNamesUnique | src/TA.DataAccess.SqlServer/SqlServerHelper.cs:233-237 | no two UPDATE parameters share a name, the id parameter included |
| Statements.SelectAllStatement | src/TA.DataAccess.SqlServer/SqlServerHelper.cs:173-175 | GetAllModels runs `SELECT * FROM t` with no parameters |
| Statements.SelectByIdStatement | src/TA.DataAccess.SqlServer/SqlServerHelper.cs:197-198 | the text starts `SELECT * FROM t`, ends with `WHERE idColumn = @Id`, and the only parameter is `@Id` with the id as given, not coalesced |
| Statements.DeleteStatement | src/TA.DataAccess.SqlServer/SqlServerHelper.cs:243-244 | the text starts `DELETE FROM t`, ends with `WHERE idColumn = @Id`, and the only parameter is `@Id` with the id as given, not coalesced |
| Statements.ByIdAndDeleteAgree | src/TA.DataAccess.SqlServer/SqlServerHelper.cs:195-246 | GetModelById and DeleteModel both end in `WHERE idColumn = @Id` and bind exactly one parameter, `@Id`, to the id as given |
| Mapping.MapCrudRow | src/TA.DataAccess.SqlServer/SqlServerHelper.cs:181-188 | the instance built from one row holds, in each CRUD property, the cell when the column exists and is not DBNull, and otherwise the default; `[NoCrud]` properties keep their default |
| Mapping.MapAllRow | src/TA.DataAccess.SqlServer/SqlServerHelper.cs:100-110 | when every conversion succeeds, the instance built from one row holds, in every public property, the cell (converted when the property is `DateTime`) when the column exists and is not DBNull, and otherwise the default; otherwise the row fails with the exception of the first property, in declaration order, whose `Convert.ToDateTime` throws |
| Mapping.RowErrorFromIsFirst | src/TA.DataAccess.SqlServer/SqlServerHelper.cs:101-110 | the error of a row is that of the first property whose conversion fails, every earlier one succeeding; a row has no error exactly when every property's conversion succeeds |
| Mapping.GetAllModels | src/TA.DataAccess.SqlServer/SqlServerHelper.cs:171-193 | runs `SELECT * FROM t`; a failing query is passed on; otherwise one instance per row, in row order, each the CRUD mapping of its row |
| Mapping.GetModelById | src/TA.DataAccess.SqlServer/SqlServerHelper.cs:195-218 | runs the by-id query; a failing query is passed on; no row gives `default` (None); otherwise the CRUD mapping of the first row alone |
| Mapping.Select | src/TA.DataAccess.SqlServer/SqlServerHelper.cs:94-115 | runs the caller's query; a failing query is passed on; a row that fails to map aborts the call with the first such row's exception; otherwise one instance per row, in row order, each the all-properties mapping of its row |
| Mapping.FirstErrorIsFirst | src/TA.DataAccess.SqlServer/SqlServerHelper.cs:98-112 | the exception that aborts the loop over rows is that of the first row that fails, every earlier row mapping; there is none exactly when every row maps |
| Mapping.CrudMappingUnique | src/TA.DataAccess.SqlServer/SqlServerHelper.cs:179-190 | the CRUD mapping of a row is unique, so the mappers' contracts fix every instance completely |
| Mapping.CrudMappingSetsExactly | src/TA.DataAccess.SqlServer/SqlServerHelper.cs:182-187 | a property takes the row's cell iff it is CRUD, the column exists and the cell is not DBNull; in every other case it keeps its default |
| Mapping.ExtraColumnIgnored | src/TA.DataAccess.SqlServer/SqlServerHelper.cs:182-187 | adding a column no property is named after does not change which instance is the mapping of the row |
| Mapping.SelectVersusCrud | src/TA.DataAccess.SqlServer/SqlServerHelper.cs:101-109 | Select<T> and GetAllModels agree on CRUD properties that are not `DateTime`; on a non-DateTime `[NoCrud]` property with a value, Select<T> takes the cell while GetAllModels keeps the default; in the model, only a `DateTime` property can make Select<T> fail |
| Execution.Run | src/TA.DataAccess.SqlServer/SqlServerHelper.cs:53-59 | the reference definition of the loop: commands run in list order, stopping at the first failure, with counts added up from 0; an empty run leaves the state as it is with count 0 |
| Execution.FailureFromCommand | src/TA.DataAccess.SqlServer/SqlServerHelper.cs:54-66 | a failed run ends exactly as one of its commands failed: every command before it succeeded, and the error and the state the run reports are what that command gives from the state the earlier ones left; the converse of StopsAtFailure |
| Execution.RunOne | src/TA.DataAccess.SqlServer/SqlServerHelper.cs:54-59 | a run of one command is that command's outcome |
| Execution.RunConcat | src/TA.DataAccess.SqlServer/SqlServerHelper.cs:54-59 | running `a + b` is running `a`, then `b` from the state `a` left; counts add up; a failure stops everything after it |
| Execution.StopsAtFailure | src/TA.DataAccess.SqlServer/SqlServerHelper.cs:54-66 | a command that fails after the earlier ones succeeded makes the whole run fail with that command's error |
| Execution.RunSnoc | src/TA.DataAccess.SqlServer/SqlServerHelper.cs:54-59 | one more successful command adds its affected count to the total |
| Execution.Transaction | src/TA.DataAccess.SqlServer/SqlServerHelper.cs:46-67 | the batch fails iff the run fails; on failure the state before the call is restored and the run's error is rethrown; on success the run's state is committed and its total returned |
| Execution.PlainCommands | src/TA.DataAccess.SqlServer/SqlServerHelper.cs:54-57 | one command per query, in list order, with its parameters cleared |
| Execution.ExecuteNonQueries | src/TA.DataAccess.SqlServer/SqlServerHelper.cs:38-71 | a null or empty list fails with the code's ArgumentException and leaves the store untouched; otherwise the outcome is the transaction over the queries in list order |
| Execution.OneQueryBatch | src/TA.DataAccess.SqlServer/SqlServerHelper.cs:38-71 | a one-query batch commits what that query alone does, or reports its error with the state rolled back |
| Execution.InsertCommands | src/TA.DataAccess.SqlServer/SqlServerHelper.cs:146-156 | one command per model, in list order, all with the one INSERT text and each with that model's parameters |
| Execution.InsertModels | src/TA.DataAccess.SqlServer/SqlServerHelper.cs:130-169 | a null or empty list fails with the code's ArgumentException and leaves the store untouched; otherwise the outcome is the transaction over one INSERT per model in list order |
| Execution.InsertModelsOfOne | src/TA.DataAccess.SqlServer/SqlServerHelper.cs:117-128 | InsertModel and InsertModels on a one-model list send the same statement: same result on success, same error on failure, with only the batch rolling back |
| Execution.UpdateModel | src/TA.DataAccess.SqlServer/SqlServerHelper.cs:220-239 | an argument failure is exactly the error of the argument checks, reported before anything reaches the database, with the store unchanged, and is an ArgumentNullException exactly when the model is null; valid arguments run the UPDATE statement once |
| TestModelExample.ShapedCrud | src/SqlServerHelperTest/Program.cs:117-125 | for a type shaped like TestModel, the CRUD list drops the `[NoCrud]` property alone |
| TestModelExample.ShapedInsertColumns | src/SqlServerHelperTest/Program.cs:117-125 | for a type shaped like TestModel, the INSERT columns are the two plain properties, in order |
| TestModelExample.ShapedSetColumns | src/SqlServerHelperTest/Program.cs:117-125 | with the identity property as id column, the SET columns are the two plain properties, in order |
| TestModelExample.InsertForTestModel | src/SqlServerHelperTest/Program.cs:64-65 | inserting `new TestModel { PId = 3, Name = "Test Name 3" }` sends `INSERT INTO TestTable (PId, Name) VALUES (@PId, @Name)` with exactly those two values |
| TestModelExample.InsertNullName | src/TA.DataAccess.SqlServer/SqlServerHelper.cs:125 | a TestModel whose Name is null binds `@Name` to DBNull instead of leaving it out |
| TestModelExample.UpdateForTestModel | src/SqlServerHelperTest/Program.cs:91-92 | `UpdateModel(model, "TestTable", "id")` sends `UPDATE TestTable SET PId = @PId, Name = @Name WHERE id = @id` with the id parameter last |
| TestModelExample.UpdateUnknownColumn | src/TA.DataAccess.SqlServer/SqlServerHelper.cs:228-230 | the id column `Pid` is rejected for TestModel, naming the type `Program+TestModel` |
| TestModelExample.MapTestRow | src/TA.DataAccess.SqlServer/SqlServerHelper.cs:179-190 | a TestModel row with an extra column maps to id, PId and Name from the row, FName null, and ignores the extra column |

## Left out

- Connection plumbing (`GetConnection`, `connection.Open`, `SqlCommand`, `SqlDataAdapter.Fill`) is left out because it calls into the driver. Executing one command and filling a table are the parameters `exec` and `fetch`, so the single-statement `ExecuteNonQuery(string, SqlParameter[])` and the raw `Select(string, SqlParameter[])` are those parameters.
- Failures to open a connection or begin a transaction are not modelled; they would surface as an error before any command runs.
- A rollback that itself throws, hiding the original error, is not modelled; rollback always restores the state before the call.
- The configuration-based constructor and connection-string lookup are left out, because they are configuration only.
- The case-insensitive column lookup of `DataTable` is not modelled; column and property names are compared exactly.
- The type-mismatch exceptions `SetValue` can raise when a cell's type does not fit the property are not modelled; a cell is stored as it is.
- `Convert.ToDateTime` is the parameter `toDateTime`; its parsing rules, and which cells it rejects with `InvalidCastException` or `FormatException`, are not modelled. Select<T> passes whichever exception it returns on.
- The `dynamic id` of GetModelById and DeleteModel is a `Datum`, a small sum of scalar values.
- Execution.InsertModel: a null model is not modelled (the model takes instances only). In the code, reading a property of null throws at SqlServerHelper.cs:125 before any connection is opened; with an empty INSERT column list no property is read and `INSERT INTO t () VALUES ()` is sent.
- Execution.InsertModels: a null element of the list is not modelled. In the code it throws at SqlServerHelper.cs:154, inside the transaction, so the batch rolls back and rethrows; with an empty INSERT column list no property is read and that element sends `INSERT INTO t () VALUES ()` instead.
- Statements.InsertParameters, Statements.UpdateParameters: every property is assumed readable. A property with no getter, or an indexer (reported as `Item`), throws when read at SqlServerHelper.cs:125, 154 (inside the batch, which then rolls back) and 236-237.
- Mapping.MapCrudRow, Mapping.MapAllRow: every property is assumed writable. `SetValue` on a property with no setter throws at SqlServerHelper.cs:106, 108, 186 and 213; Select<T> reaches even computed `[NoCrud]` properties whose column exists.
- Execution.Transaction: commit always succeeds. In the code `Commit` (SqlServerHelper.cs:60 and 158) is inside the `try`, so a failing commit would roll back and rethrow; the model returns the run's result whenever every command succeeded.
- Schema.UniqueNames: a type whose reflected properties repeat a name is not modelled. `GetProperties` also returns inherited properties, so a base property hidden with `new` and a different type comes back beside the one hiding it; `GetProperty` at SqlServerHelper.cs:228 then throws an ambiguous-match exception. The mappers, `Schema.NewInstance` and `Statements.ExcludedNeverInserted` require unique names.
- A value-type `T`, whose `default` is an instance rather than null, is not modelled; GetModelById returns None for no row.
- Execution.ExecuteNonQueries: the total is an unbounded integer; the code's `int` can wrap on more than 2^31 - 1 affected rows.
- Execution.InsertModels: the total is an unbounded integer; the code's `int` can wrap on more than 2^31 - 1 affected rows.
- What the database does with a statement, and identifier quoting or injection, are not modelled; table and column names are pasted into the text verbatim, as the code does.
- "A `[NoCrud]` or `[Identity]` name never appears in the INSERT text" is stated on the column list (`Statements.ExcludedNeverInserted`), not on the text, since a name can occur inside another name.
- Execution.InsertModel and Execution.DeleteModel run one statement with no further logic, so they carry no contract of their own; their statements are described by `Statements.InsertStatement`, `Statements.InsertParameters`, `Execution.InsertModelsOfOne` and `Statements.DeleteStatement`.
- The demo program `src/SqlServerHelperTest/Program.cs` is used only for its `TestModel` type and the calls it makes; its console output and dependency-injection setup are left out.
