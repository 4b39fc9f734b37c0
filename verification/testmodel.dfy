/**
 * The demo program's TestModel: `id` [Identity], `PId`, `Name`, and
 * `FName` [NoCrud]. The statements and the mapping are worked out for any
 * type of that shape (names `a`, `b`, `c`, `d`), then for TestModel itself.
 */
module TestModelExample {

  import opened Wrappers
  import opened Sql
  import opened Schema
  import opened Statements
  import opened Mapping

  /** A type shaped like TestModel: an [Identity] int, a plain int, a plain string, a [NoCrud] string. */
  function Shaped(a: string, b: string, c: string, d: string): ModelType
  {
    ModelType("Program+TestModel", [
      Property(a, false, true, false, Int(0)),
      Property(b, false, false, false, Int(0)),
      Property(c, false, false, false, ClrNull),
      Property(d, true, false, false, ClrNull)])
  }

  function TestModel(): ModelType
  {
    Shaped("id", "PId", "Name", "FName")
  }

  lemma ShapedNames(a: string, b: string, c: string, d: string)
    ensures NameSet(Shaped(a, b, c, d).properties) == {a, b, c, d}
  {
    var ps := Shaped(a, b, c, d).properties;
    assert ps[0].name == a && ps[1].name == b && ps[2].name == c && ps[3].name == d;
    forall n | n in NameSet(ps) ensures n in {a, b, c, d} {
      var i :| 0 <= i < |ps| && ps[i].name == n;
    }
    forall n | n in {a, b, c, d} ensures n in NameSet(ps) {
      if n == a { assert ps[0].name == n; }
      else if n == b { assert ps[1].name == n; }
      else if n == c { assert ps[2].name == n; }
      else { assert ps[3].name == n; }
    }
  }

  /** The CRUD list drops the [NoCrud] property alone. */
  lemma ShapedCrud(a: string, b: string, c: string, d: string)
    ensures CrudProperties(Shaped(a, b, c, d)) == Shaped(a, b, c, d).properties[..3]
  {
    var ps := Shaped(a, b, c, d).properties;
    var p0, p1, p2, p3 := ps[0], ps[1], ps[2], ps[3];
    assert ps[1..] == [p1, p2, p3];
    assert [p1, p2, p3][1..] == [p2, p3];
    assert [p2, p3][1..] == [p3];
    assert [p3][1..] == [];
    assert Where([p3], IsCrud) == [];
    assert Where([p2, p3], IsCrud) == [p2];
    assert Where([p1, p2, p3], IsCrud) == [p1, p2];
    assert Where(ps, IsCrud) == [p0] + Where(ps[1..], IsCrud);
    assert ps[..3] == [p0, p1, p2];
  }

  /** The INSERT list also drops the [Identity] property. */
  lemma ShapedInsertColumns(a: string, b: string, c: string, d: string)
    ensures InsertColumns(Shaped(a, b, c, d)) == [b, c]
  {
    var ps := Shaped(a, b, c, d).properties;
    ShapedCrud(a, b, c, d);
    var crud := ps[..3];
    assert crud[1..][1..][1..] == [];
    assert Where(crud[1..][1..], NotIdentity) == [ps[2]];
    assert Where(crud, NotIdentity) == [ps[1], ps[2]];
  }

  /** The SET list for id column `a` drops `a` too. */
  lemma ShapedSetColumns(a: string, b: string, c: string, d: string)
    requires b != a && c != a
    ensures Names(UpdateProperties(Shaped(a, b, c, d), a)) == [b, c]
  {
    var ps := Shaped(a, b, c, d).properties;
    ShapedCrud(a, b, c, d);
    var crud := ps[..3];
    var keep := SetFilter(a);
    assert crud[1..][1..][1..] == [];
    assert Where(crud[1..][1..], keep) == [ps[2]];
    assert Where(crud, keep) == [ps[1], ps[2]];
  }

  /** The INSERT text for the shape: `INSERT INTO t (b, c) VALUES (@b, @c)`. */
  lemma ShapedInsertText(a: string, b: string, c: string, d: string, tableName: string)
    ensures InsertText(Shaped(a, b, c, d), tableName) ==
      "INSERT INTO " + tableName + " (" + (b + ", " + c) + ") VALUES (" + ("@" + b + ", " + "@" + c) + ")"
  {
    var cols := [b, c];
    ShapedInsertColumns(a, b, c, d);
    JoinPair(", ", b, c);
    var phs := Placeholders(cols);
    assert phs == ["@" + b, "@" + c];
    JoinPair(", ", "@" + b, "@" + c);
    InsertTextOf(Shaped(a, b, c, d), tableName, cols);
  }

  /** The INSERT parameters for an instance of the shape: `@b` then `@c`, nulls bound as DBNull. */
  lemma ShapedInsertParameters(a: string, b: string, c: string, d: string, m: Record)
    requires IsInstance(Shaped(a, b, c, d), m)
    ensures b in m && c in m
    ensures InsertParameters(Shaped(a, b, c, d), m) == [Param("@" + b, Coalesce(m[b])), Param("@" + c, Coalesce(m[c]))]
  {
    ShapedNames(a, b, c, d);
    ShapedInsertColumns(a, b, c, d);
    var ps := InsertParameters(Shaped(a, b, c, d), m);
    assert |ps| == 2;
    assert ps[0] == Param("@" + b, Coalesce(m[b]));
    assert ps[1] == Param("@" + c, Coalesce(m[c]));
  }

  /** The UPDATE statement for the shape with id column `a`. */
  lemma ShapedUpdate(a: string, b: string, c: string, d: string, tableName: string, m: Record)
    requires a != "" && b != a && c != a
    requires IsInstance(Shaped(a, b, c, d), m)
    ensures a in m && b in m && c in m
    ensures UpdateStatement(Shaped(a, b, c, d), Some(m), tableName, Some(a)) ==
      Ok(Statement("UPDATE " + tableName + " SET " + (b + " = @" + b + ", " + c + " = @" + c) + " WHERE " + a + " = @" + a,
                   [Param("@" + b, Coalesce(m[b])), Param("@" + c, Coalesce(m[c])), Param("@" + a, m[a])]))
  {
    ShapedNames(a, b, c, d);
    assert Names(UpdateProperties(Shaped(a, b, c, d), a)) == [b, c] by {
      ShapedSetColumns(a, b, c, d);
    }
    assert SetClause([b, c]) == b + " = @" + b + ", " + c + " = @" + c by {
      var asg := Assignments([b, c]);
      assert asg == [b + " = @" + b, c + " = @" + c];
      JoinPair(", ", b + " = @" + b, c + " = @" + c);
    }
    var ps := UpdateParameters(Shaped(a, b, c, d), m, a);
    assert ps == [Param("@" + b, Coalesce(m[b])), Param("@" + c, Coalesce(m[c])), Param("@" + a, m[a])] by {
      assert |ps| == 3;
      assert ps[0] == Param("@" + b, Coalesce(m[b]));
      assert ps[1] == Param("@" + c, Coalesce(m[c]));
      assert ps[2] == Param("@" + a, m[a]);
    }
  }

  /** `new TestModel { PId = 3, Name = "Test Name 3" }`. */
  function NewA(): (m: Record)
    ensures IsInstance(TestModel(), m)
  {
    ShapedNames("id", "PId", "Name", "FName");
    map["id" := Int(0), "PId" := Int(3), "Name" := Text("Test Name 3"), "FName" := ClrNull]
  }

  /** The INSERT for TestModel omits the identity `id` and the excluded `FName`, and binds both columns. */
  lemma InsertForTestModel()
    ensures InsertStatement(TestModel(), "TestTable", NewA()) ==
      Statement("INSERT INTO " + "TestTable" + " (" + ("PId" + ", " + "Name") + ") VALUES (" + ("@" + "PId" + ", " + "@" + "Name") + ")",
                [Param("@" + "PId", Int(3)), Param("@" + "Name", Text("Test Name 3"))])
  {
    ShapedInsertText("id", "PId", "Name", "FName", "TestTable");
    ShapedInsertParameters("id", "PId", "Name", "FName", NewA());
  }

  /** A TestModel whose Name is null is bound with DBNull for `@Name`, not left out. */
  lemma InsertNullName()
    ensures var m := NewA()["Name" := ClrNull];
      IsInstance(TestModel(), m) &&
      InsertStatement(TestModel(), "TestTable", m).parameters ==
        [Param("@" + "PId", Int(3)), Param("@" + "Name", DbNull)]
  {
    var m := NewA()["Name" := ClrNull];
    assert m.Keys == NewA().Keys;
    ShapedInsertParameters("id", "PId", "Name", "FName", m);
  }

  /** UpdateModel(model, "TestTable", "id") as the demo program calls it. */
  lemma UpdateForTestModel()
    ensures UpdateStatement(TestModel(), Some(NewA()), "TestTable", Some("id")) ==
      Ok(Statement("UPDATE " + "TestTable" + " SET " + ("PId" + " = @" + "PId" + ", " + "Name" + " = @" + "Name")
                     + " WHERE " + "id" + " = @" + "id",
                   [Param("@" + "PId", Int(3)), Param("@" + "Name", Text("Test Name 3")), Param("@" + "id", Int(0))]))
  {
    ShapedUpdate("id", "PId", "Name", "FName", "TestTable", NewA());
  }

  /** An id column TestModel does not have is rejected, naming the type. */
  lemma UpdateUnknownColumn()
    ensures UpdateStatement(TestModel(), Some(NewA()), "TestTable", Some("Pid")) ==
      Err(Argument("Property '" + "Pid" + "' not found on type '" + "Program+TestModel" + "'.", None))
  {
    assert "Pid" !in NameSet(TestModel().properties) by {
      ShapedNames("id", "PId", "Name", "FName");
      assert "Pid" != "PId" && "Pid" != "id" && "Pid" != "Name" && "Pid" != "FName";
    }
  }

  /**
   * Mapping the row `{id: 1, PId: 1, Name: "Test Name 1", Extra: 9}` with
   * GetAllModels: `id` comes from the database, `FName` stays null, the
   * column `Extra`, which TestModel has no property for, is ignored.
   */
  lemma MapTestRow(m: Record)
    requires IsCrudMapping(TestModel(), {"id", "PId", "Name", "Extra"},
      map["id" := Int(1), "PId" := Int(1), "Name" := Text("Test Name 1"), "Extra" := Int(9)], m)
    ensures m == map["id" := Int(1), "PId" := Int(1), "Name" := Text("Test Name 1"), "FName" := ClrNull]
  {
    var ps := TestModel().properties;
    assert ps[0].name == "id" && ps[1].name == "PId" && ps[2].name == "Name" && ps[3].name == "FName";
    assert m["id"] == Int(1);
    assert m["PId"] == Int(1);
    assert m["Name"] == Text("Test Name 1");
    assert m["FName"] == ClrNull;
    ShapedNames("id", "PId", "Name", "FName");
  }
}
