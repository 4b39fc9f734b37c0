/**
 * The metadata reflector: a model type is an explicit, ordered list of
 * property descriptors in place of `typeof(T).GetProperties(Public | Instance)`,
 * and a model instance is a map from property name to value.
 */
module Schema {

  import opened Sql

  /** One public instance property of a model type, with its attributes. */
  datatype Property = Property(
    name: string,
    noCrud: bool,       // carries [NoCrud]
    identity: bool,     // carries [Identity]
    isDateTime: bool,   // its PropertyType is exactly DateTime
    default: Datum)     // the value `new T()` leaves in it

  /** A model type: its full name and its public properties in declaration order. */
  datatype ModelType = ModelType(fullName: string, properties: seq<Property>)

  /** A model instance: the value of each property, by name. */
  type Record = map<string, Datum>

  /**
   * No two properties share a name. A C# class declares each name once; a
   * base property hidden with `new` is outside the model.
   */
  predicate UniqueNames(ps: seq<Property>)
  {
    forall i, j :: 0 <= i < j < |ps| ==> ps[i].name != ps[j].name
  }

  function NameSet(ps: seq<Property>): set<string>
  {
    set i | 0 <= i < |ps| :: ps[i].name
  }

  function Names(ps: seq<Property>): (r: seq<string>)
    ensures |r| == |ps|
    ensures forall k :: 0 <= k < |ps| ==> r[k] == ps[k].name
  {
    seq(|ps|, k requires 0 <= k < |ps| => ps[k].name)
  }

  lemma NameInNameSet(ps: seq<Property>, p: Property)
    requires p in ps
    ensures p.name in NameSet(ps)
  {
    var i :| 0 <= i < |ps| && ps[i] == p;
  }

  /** Properties of a unique-named list that share a name are the same property. */
  lemma SameNameSameProperty(ps: seq<Property>, p: Property, q: Property)
    requires UniqueNames(ps) && p in ps && q in ps && p.name == q.name
    ensures p == q
  {
    var i :| 0 <= i < |ps| && ps[i] == p;
    var j :| 0 <= j < |ps| && ps[j] == q;
  }

  /** An instance of `t`: a value for exactly the properties of `t`. */
  predicate IsInstance(t: ModelType, m: Record)
  {
    m.Keys == NameSet(t.properties)
  }

  /** LINQ `Where`: the elements that satisfy `keep`, in their original order. */
  function Where(ps: seq<Property>, keep: Property -> bool): (r: seq<Property>)
    ensures |r| <= |ps|
    ensures forall p {:trigger p in r} :: p in r <==> p in ps && keep(p)
  {
    if ps == [] then []
    else if keep(ps[0]) then [ps[0]] + Where(ps[1..], keep)
    else Where(ps[1..], keep)
  }

  /** Filtering distributes over concatenation: `Where` keeps the relative order of what it keeps. */
  lemma {:induction false} WhereConcat(a: seq<Property>, b: seq<Property>, keep: Property -> bool)
    ensures Where(a + b, keep) == Where(a, keep) + Where(b, keep)
  {
    if a == [] {
      assert a + b == b;
    } else {
      assert (a + b)[0] == a[0];
      assert (a + b)[1..] == a[1..] + b;
      WhereConcat(a[1..], b, keep);
    }
  }

  /** Filtering never drops anything when every element satisfies `keep`. */
  lemma {:induction false} WhereKeepsAll(ps: seq<Property>, keep: Property -> bool)
    requires forall p :: p in ps ==> keep(p)
    ensures Where(ps, keep) == ps
  {
    if ps != [] {
      WhereKeepsAll(ps[1..], keep);
    }
  }

  /** Filtering keeps nothing when no element satisfies `keep`. */
  lemma {:induction false} WhereDropsAll(ps: seq<Property>, keep: Property -> bool)
    requires forall p :: p in ps ==> !keep(p)
    ensures Where(ps, keep) == []
  {
    if ps != [] {
      WhereDropsAll(ps[1..], keep);
    }
  }

  /** A filtered unique-named list stays unique-named. */
  lemma {:induction false} WhereUnique(ps: seq<Property>, keep: Property -> bool)
    requires UniqueNames(ps)
    ensures UniqueNames(Where(ps, keep))
  {
    if ps != [] {
      var rest := ps[1..];
      assert UniqueNames(rest) by {
        forall i, j | 0 <= i < j < |rest| ensures rest[i].name != rest[j].name {
          assert rest[i] == ps[i + 1] && rest[j] == ps[j + 1];
        }
      }
      WhereUnique(rest, keep);
      if keep(ps[0]) {
        var w := Where(rest, keep);
        var r := [ps[0]] + w;
        forall i, j | 0 <= i < j < |r| ensures r[i].name != r[j].name {
          if i == 0 {
            assert r[j] == w[j - 1] && r[j] in w;
            assert r[j] in rest;
            var k :| 0 <= k < |rest| && rest[k] == r[j];
            assert ps[k + 1] == r[j];
          } else {
            assert r[i] == w[i - 1] && r[j] == w[j - 1];
          }
        }
      }
    }
  }

  /** The property carries no [NoCrud] attribute. */
  predicate IsCrud(p: Property)
  {
    !p.noCrud
  }

  /**
   * `GetCrudProperties<T>()`: the public properties without [NoCrud], in declaration order.
   */
  function CrudProperties(t: ModelType): (r: seq<Property>)
    ensures forall p {:trigger p in r} :: p in r <==> p in t.properties && !p.noCrud
  {
    Where(t.properties, IsCrud)
  }

  /**
   * Declaration order is kept: the CRUD list of properties `a` followed by
   * properties `b` is the CRUD list of `a` followed by that of `b`.
   */
  lemma CrudPropertiesInOrder(name: string, a: seq<Property>, b: seq<Property>)
    ensures CrudProperties(ModelType(name, a + b)) ==
      CrudProperties(ModelType(name, a)) + CrudProperties(ModelType(name, b))
  {
    WhereConcat(a, b, IsCrud);
  }

  /** A type with no [NoCrud] property has all its properties in the CRUD list. */
  lemma UntaggedAllKept(t: ModelType)
    requires forall p :: p in t.properties ==> !p.noCrud
    ensures CrudProperties(t) == t.properties
  {
    WhereKeepsAll(t.properties, IsCrud);
  }

  /** `new T()`: every property at its default. */
  function NewInstance(t: ModelType): (m: Record)
    requires UniqueNames(t.properties)
    ensures IsInstance(t, m)
    ensures forall i :: 0 <= i < |t.properties| ==> m[t.properties[i].name] == t.properties[i].default
  {
    var ps := t.properties;
    map i | 0 <= i < |ps| :: ps[i].name := ps[i].default
  }
}
