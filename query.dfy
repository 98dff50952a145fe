/**
 * The query handle a repository carries between calls.
 *
 * The ORM's builder is not reproduced: a handle is the class of the entity
 * it was made from plus the builder calls made on it so far, in the order
 * they were made. What those calls mean in SQL belongs to the ORM; the views
 * at the end of this module (the where clauses, the last limit, offset and
 * select recorded) are what the repository layer hands over, not what the
 * ORM makes of them.
 */
module QueryBuilder {
  import opened Wrappers

  type Column = string

  /** A scalar handed to the builder (a date string, a status, an id); the ORM binds it. */
  type Value = string

  /** An associative PHP array `column => value`, in insertion order. */
  type WhereMap = seq<(Column, Value)>

  /** How a where clause is joined to the clauses before it. */
  datatype Boolean = And | Or

  datatype Clause =
      /** `where($column, $operator, $value)` */
    | Basic(column: Column, operator: string, value: Value, boolean: Boolean)
      /** `where($array)` and `orWhere($array)`: the pairs as recorded; how the ORM joins them is its own business */
    | Pairs(pairs: WhereMap, boolean: Boolean)
      /** `whereIn($column, $values)` */
    | In(column: Column, values: seq<Value>)
      /** `whereNotIn($column, $values)` */
    | NotIn(column: Column, values: seq<Value>)
      /** `where(Closure)`: the clauses the closure added, in parentheses */
    | Nested(group: seq<Clause>, boolean: Boolean)
      /** `whereKey($id)`: the model's primary key equals `id` */
    | Key(id: int)

  /**
   * The builder modifiers a repository forwards unchanged: ordering, eager
   * loading, soft-delete scopes and relation-existence conditions. Closures
   * handed to them are user code and are kept by name only. Parameter
   * defaults are those of the repository's own signatures.
   */
  datatype Modifier =
    | OrderBy(column: Column, direction: string := "asc")
    | With(relations: seq<string>)
    | WithTrashed
    | OnlyTrashed
    | Has(relation: string, operator: string := ">=", count: int := 1, boolean: Boolean := And, callback: Option<string> := None)
    | OrHas(relation: string, operator: string := ">=", count: int := 1)
    | DoesntHave(relation: string, boolean: Boolean := And, callback: Option<string> := None)
    | OrDoesntHave(relation: string)
    | WhereHas(relation: string, callback: Option<string> := None, operator: string := ">=", count: int := 1)
    | OrWhereHas(relation: string, callback: Option<string> := None, operator: string := ">=", count: int := 1)
    | WhereDoesntHave(relation: string, callback: Option<string> := None)
    | OrWhereDoesntHave(relation: string, callback: Option<string> := None)
    | HasMorph(relation: string, types: seq<string>, operator: string := ">=", count: int := 1, boolean: Boolean := And, callback: Option<string> := None)
    | OrHasMorph(relation: string, types: seq<string>, operator: string := ">=", count: int := 1)
    | DoesntHaveMorph(relation: string, types: seq<string>, boolean: Boolean := And, callback: Option<string> := None)
    | OrDoesntHaveMorph(relation: string, types: seq<string>)
    | WhereHasMorph(relation: string, types: seq<string>, callback: Option<string> := None, operator: string := ">=", count: int := 1)
    | OrWhereHasMorph(relation: string, types: seq<string>, callback: Option<string> := None, operator: string := ">=", count: int := 1)
    | WhereDoesntHaveMorph(relation: string, types: seq<string>, callback: Option<string> := None)
    | OrWhereDoesntHaveMorph(relation: string, types: seq<string>, callback: Option<string> := None)
    | WithCount(relations: seq<string>)

  datatype Step =
    | Where(clause: Clause)
      /** `select($columns)`: replaces the selected columns */
    | Select(columns: seq<Column>)
    | Limit(limit: int)
    | Offset(offset: int)
    | Modify(modifier: Modifier)
      /** any other builder call, such as one an application's criterion makes: the method and its arguments */
    | Custom(className: string, fields: seq<Value>)
      /** the handle was replaced by the model record a write produced */
    | Record(write: string)

  datatype Query = Query(base: string, steps: seq<Step>)

  /** A handle fresh from the container: no builder call made yet. */
  function Fresh(base: string): Query {
    Query(base, [])
  }

  /** The handle a builder call returns: the same one with one more call recorded. */
  function Then(q: Query, s: Step): Query {
    Query(q.base, q.steps + [s])
  }

  /**
   * The handle is a model instance rather than a builder: fresh from the
   * container, or the record a write put in its place.
   */
  predicate IsModel(q: Query) {
    q.steps == [] || q.steps[|q.steps| - 1].Record?
  }

  /**
   * The handle left behind by a builder call made on `q` for its result: a
   * model answers with a new builder and stays as it was, while a builder
   * records the call on itself in place.
   */
  function CalledOn(q: Query, s: Step): (r: Query)
    ensures r.base == q.base
    ensures IsModel(q) ==> r == q
    ensures !IsModel(q) ==> r.steps == q.steps + [s]
  {
    if IsModel(q) then q else Then(q, s)
  }

  /** `r` was obtained from `q` by further builder calls only. */
  ghost predicate Extends(q: Query, r: Query) {
    r.base == q.base && q.steps <= r.steps
  }

  lemma ExtendsTransitive(p: Query, q: Query, r: Query)
    requires Extends(p, q) && Extends(q, r)
    ensures Extends(p, r)
  {
  }

  /** The where clauses of a handle, in the order they were added. */
  function Wheres(steps: seq<Step>): (ws: seq<Clause>)
    ensures forall c :: c in ws ==> Where(c) in steps
  {
    if steps == [] then []
    else
      var init := Wheres(steps[..|steps| - 1]);
      if steps[|steps| - 1].Where? then init + [steps[|steps| - 1].clause] else init
  }

  /** The last limit recorded on the handle (the ORM may still ignore or clamp it). */
  function LimitOf(steps: seq<Step>): (r: Option<int>)
    ensures r.Some? ==> Limit(r.value) in steps
  {
    if steps == [] then None
    else if steps[|steps| - 1].Limit? then Some(steps[|steps| - 1].limit)
    else LimitOf(steps[..|steps| - 1])
  }

  /** The last offset recorded on the handle (the ORM may still clamp it). */
  function OffsetOf(steps: seq<Step>): (r: Option<int>)
    ensures r.Some? ==> Offset(r.value) in steps
  {
    if steps == [] then None
    else if steps[|steps| - 1].Offset? then Some(steps[|steps| - 1].offset)
    else OffsetOf(steps[..|steps| - 1])
  }

  /** The selected columns: the last `select` recorded, since each one replaces the columns. */
  function ColumnsOf(steps: seq<Step>): (r: Option<seq<Column>>)
    ensures r.Some? ==> Select(r.value) in steps
  {
    if steps == [] then None
    else if steps[|steps| - 1].Select? then Some(steps[|steps| - 1].columns)
    else ColumnsOf(steps[..|steps| - 1])
  }

  /** The where clauses of two runs of builder calls, one after the other, are those of each in turn. */
  lemma {:induction false} WheresAppend(a: seq<Step>, b: seq<Step>)
    ensures Wheres(a + b) == Wheres(a) + Wheres(b)
    decreases |b|
  {
    if b == [] {
      assert a + b == a;
    } else {
      var b' := b[..|b| - 1];
      assert (a + b)[..|a + b| - 1] == a + b';
      assert (a + b)[|a + b| - 1] == b[|b| - 1];
      WheresAppend(a, b');
    }
  }

  /** A later limit, offset or select overrides an earlier one; without one the earlier stays. */
  lemma {:induction false} LastValueAppend(a: seq<Step>, b: seq<Step>)
    ensures LimitOf(a + b) == if LimitOf(b).Some? then LimitOf(b) else LimitOf(a)
    ensures OffsetOf(a + b) == if OffsetOf(b).Some? then OffsetOf(b) else OffsetOf(a)
    ensures ColumnsOf(a + b) == if ColumnsOf(b).Some? then ColumnsOf(b) else ColumnsOf(a)
    decreases |b|
  {
    if b == [] {
      assert a + b == a;
    } else {
      var b' := b[..|b| - 1];
      assert (a + b)[..|a + b| - 1] == a + b';
      assert (a + b)[|a + b| - 1] == b[|b| - 1];
      LastValueAppend(a, b');
    }
  }
}
