/**
 * The repository: an ordered criteria list, a flag that switches their use
 * off, and the current query handle, which every terminal operation
 * replaces by a fresh one from the container.
 *
 * The ORM itself is not modelled: a terminal operation returns the request
 * it handed to the ORM (`Executed`), the operation plus the handle it ran
 * on; the rows, counts and pages the ORM answers with are a function of it.
 */
module Repositories {
  import opened Wrappers
  import opened QueryBuilder
  import opened Criteria
  import opened CriteriaStack
  import opened EntityException

  /**
   * The application container the repository resolves its entity class
   * with. It is shared with the rest of the application, which may rebind
   * classes at any time; `models` holds the class names it currently
   * resolves to instances of an ORM model.
   */
  class Container {
    var models: set<string>

    constructor (models: set<string>)
      ensures this.models == models
    {
      this.models := models;
    }
  }

  datatype Operation =
    | All(columns: seq<Column>)
    | Get(columns: seq<Column>)
    | First(columns: seq<Column>)
    | FirstOrNew(where: WhereMap)
    | Chunk(count: int, callback: string)
    | Count(columns: seq<Column>)
    | Sum(column: Column)
    | Paginate(perPage: Option<int>, columns: seq<Column>, pageName: string, page: Option<int>)
    | SimplePaginate(perPage: Option<int>, columns: seq<Column>, pageName: string, page: Option<int>)
    | Create(attributes: WhereMap)
    | UpdateOrCreate(where: WhereMap, values: WhereMap)
    | Update(id: int, attributes: WhereMap)

  /** What the ORM was asked to do, and on which handle. */
  datatype Execution = Executed(operation: Operation, query: Query)

  datatype RepositoryError =
      /** the container resolved the entity class to something that is not a model */
    | EntityError(exception: RepositoryEntityException)
      /** `findOrFail` found no record with this id */
    | ModelNotFound(id: int)
      /** an argument did not have its parameter's declared type */
    | TypeError(parameter: string)
      /** `serialize` refused an object of this class while a cache key was derived */
    | NotSerializable(className: string)
      /** `(string)` on a criterion of this class, which has no `__toString`, while a cache key was derived */
    | NotStringable(className: string)
      /** the handle is a builder, which has no method of this name */
    | BadMethodCall(name: string)

  const DefaultColumns: seq<Column> := ["*"]

  /** The error makeEntity raises for an entity class that does not resolve to a model. */
  function EntityErrorFor(entityClass: string): RepositoryError {
    EntityError(NewRepositoryEntityException(Some(entityClass)))
  }

  /**
   * The handle `findOrFail($id)` leaves behind when no record has that id: a
   * model hands the lookup to a new builder and stays as it was, while a
   * builder keeps the `whereKey($id)` and the `take(1)` of `first` it made on
   * itself.
   */
  function FindOrFailLeft(q: Query, id: int): (r: Query)
    ensures r.base == q.base
    ensures IsModel(q) ==> r == q
    ensures !IsModel(q) ==> Extends(q, r) && Wheres(r.steps) == Wheres(q.steps) + [Key(id)] && LimitOf(r.steps) == Some(1)
  {
    var left := CalledOn(CalledOn(q, Where(Key(id))), Limit(1));
    assert !IsModel(q) ==> left.steps[..|left.steps| - 1] == q.steps + [Where(Key(id))];
    assert (q.steps + [Where(Key(id))])[..|q.steps|] == q.steps;
    left
  }

  /**
   * The handle `firstOrNew($attributes)` leaves behind: a model hands the
   * lookup to a new builder and stays as it was, while a builder keeps the
   * `where($attributes)` and the `take(1)` of `first` it made on itself.
   */
  function FirstOrNewLeft(q: Query, where: WhereMap): (r: Query)
    ensures r.base == q.base
    ensures IsModel(q) ==> r == q
    ensures !IsModel(q) ==> Extends(q, r) && Wheres(r.steps) == Wheres(q.steps) + [Pairs(where, And)] && LimitOf(r.steps) == Some(1)
  {
    var left := CalledOn(CalledOn(q, Where(Pairs(where, And))), Limit(1));
    assert !IsModel(q) ==> left.steps[..|left.steps| - 1] == q.steps + [Where(Pairs(where, And))];
    assert (q.steps + [Where(Pairs(where, And))])[..|q.steps|] == q.steps;
    left
  }

  /** `whereIn($column, $values)->get()` as CoreRepository::findWhereIn writes it: the columns asked for are dropped. */
  function FindWhereInRequest(applied: Query, column: Column, values: seq<Value>, columns: seq<Column>): (e: Execution)
    ensures e.operation == Operation.Get(DefaultColumns)
    ensures Wheres(e.query.steps) == Wheres(applied.steps) + [In(column, values)]
  {
    ThenViews(applied, Where(In(column, values)));
    Executed(Operation.Get(DefaultColumns), Then(applied, Where(In(column, values))))
  }

  /** findWhereIn as its signature and its siblings findWhere and findWhereNotIn evidently intend it: the columns are selected. */
  function FindWhereInRequestIntended(applied: Query, column: Column, values: seq<Value>, columns: seq<Column>): (e: Execution)
    ensures e.operation == Operation.Get(columns)
    ensures Wheres(e.query.steps) == Wheres(applied.steps) + [In(column, values)]
  {
    ThenViews(applied, Where(In(column, values)));
    Executed(Operation.Get(columns), Then(applied, Where(In(column, values))))
  }

  /** The two differ for every column list other than the default: asking for `id` still reads every column. */
  lemma FindWhereInDropsColumns(applied: Query, column: Column, values: seq<Value>, columns: seq<Column>)
    requires columns != DefaultColumns
    ensures FindWhereInRequest(applied, column, values, columns) != FindWhereInRequestIntended(applied, column, values, columns)
    ensures FindWhereInRequest(applied, column, values, columns).operation.columns != columns
  {
  }

  class Repository {
    const app: Container
    /** The entity class the concrete repository names, `entity()`. */
    const entityClass: string
    var entity: Query
    /** The criteria Collection: each criterion under the key it was pushed with. */
    var criteria: seq<Item>
    var skipCriteria: bool

    /** The handle applyCriteria makes of the current one. */
    function Applied(): Query
      reads this
    {
      if skipCriteria then entity else ApplyAll(Values(criteria), entity)
    }

    /**
     * How every terminal operation ends: makeEntity either replaces the
     * handle by a fresh one and the operation returns its result, or it
     * raises, the result is lost and the handle stays as `left`.
     */
    ghost predicate EndsWithMakeEntity<T>(r: Result<T, RepositoryError>, left: Query)
      reads this, app
    {
      && (r.Success? <==> entityClass in app.models)
      && (r.Success? ==> entity == Fresh(entityClass))
      && (r.Failure? ==> entity == left && r.error == EntityErrorFor(entityClass))
    }

    /** The state after a successful makeEntity in the constructor; New below handles the failure. */
    constructor (app: Container, entityClass: string)
      requires entityClass in app.models
      ensures this.app == app && this.entityClass == entityClass
      ensures criteria == [] && !skipCriteria && entity == Fresh(entityClass)
    {
      this.app := app;
      this.entityClass := entityClass;
      criteria := [];
      skipCriteria := false;
      entity := Fresh(entityClass);
    }

    /** `new Repository($app)`: an empty criteria list, then makeEntity, which may raise. */
    static method New(app: Container, entityClass: string) returns (r: Result<Repository, RepositoryError>)
      ensures r.Success? <==> entityClass in app.models
      ensures r.Success? ==> fresh(r.value) && r.value.app == app && r.value.entityClass == entityClass
      ensures r.Success? ==> r.value.criteria == [] && !r.value.skipCriteria && r.value.entity == Fresh(entityClass)
      ensures r.Failure? ==> r.error == EntityErrorFor(entityClass)
    {
      if entityClass !in app.models {
        return Failure(EntityErrorFor(entityClass));
      }
      var repo := new Repository(app, entityClass);
      return Success(repo);
    }

    /** Resolve the entity class anew; only a model instance replaces the handle. */
    method MakeEntity() returns (r: Outcome<RepositoryError>)
      modifies this
      ensures criteria == old(criteria) && skipCriteria == old(skipCriteria)
      ensures r.Pass? <==> entityClass in app.models
      ensures r.Pass? ==> entity == Fresh(entityClass)
      ensures r.Fail? ==> entity == old(entity) && r.error == EntityErrorFor(entityClass)
    {
      if entityClass !in app.models {
        return Fail(EntityErrorFor(entityClass));
      }
      entity := Fresh(entityClass);
      return Pass;
    }

    method GetEntity() returns (q: Query)
      ensures q == entity
    {
      q := entity;
    }

    method SetEntity(q: Query)
      modifies this
      ensures entity == q
      ensures criteria == old(criteria) && skipCriteria == old(skipCriteria)
    {
      entity := q;
    }

    method GetCriteria() returns (cs: seq<Item>)
      ensures cs == criteria
    {
      cs := criteria;
    }

    /** Append one criterion at the end, under a key above every key in use; nothing else changes. */
    method PushCriteria(c: Criterion)
      modifies this
      ensures criteria == old(criteria) + [Item(NextKey(old(criteria)), c)]
      ensures entity == old(entity) && skipCriteria == old(skipCriteria)
    {
      criteria := criteria + [Item(NextKey(criteria), c)];
    }

    /** Drop every criterion of class `name`, keeping the others in order and under their keys, then reset the handle. */
    method PopCriteria(name: string) returns (r: Outcome<RepositoryError>)
      modifies this
      ensures criteria == RejectItems(old(criteria), name)
      ensures skipCriteria == old(skipCriteria)
      ensures r.Pass? <==> entityClass in app.models
      ensures r.Pass? ==> entity == Fresh(entityClass)
      ensures r.Fail? ==> entity == old(entity) && r.error == EntityErrorFor(entityClass)
    {
      criteria := RejectItems(criteria, name);
      r := MakeEntity();
    }

    /** Empty the criteria list, then reset the handle. */
    method ClearCriteria() returns (r: Outcome<RepositoryError>)
      modifies this
      ensures criteria == [] && skipCriteria == old(skipCriteria)
      ensures r.Pass? <==> entityClass in app.models
      ensures r.Pass? ==> entity == Fresh(entityClass)
      ensures r.Fail? ==> entity == old(entity) && r.error == EntityErrorFor(entityClass)
    {
      criteria := [];
      r := MakeEntity();
    }

    method SkipCriteria(skip: bool)
      modifies this
      ensures skipCriteria == skip
      ensures criteria == old(criteria) && entity == old(entity)
    {
      skipCriteria := skip;
    }

    /** Apply the criteria, in insertion order, to the handle; a no-op while the skip flag is set. */
    method ApplyCriteria()
      modifies this
      ensures entity == old(Applied())
      ensures skipCriteria ==> entity == old(entity)
      ensures criteria == old(criteria) && skipCriteria == old(skipCriteria)
    {
      if skipCriteria {
        return;
      }
      ghost var start := entity;
      var i := 0;
      while i < |criteria|
        invariant 0 <= i <= |criteria|
        invariant criteria == old(criteria) && skipCriteria == old(skipCriteria)
        invariant entity == ApplyAll(Values(criteria)[..i], start)
      {
        var c := criteria[i].criterion;
        assert Values(criteria)[..i + 1][..i] == Values(criteria)[..i];
        if ExtendsBase(c) {
          entity := Apply(c, entity);
        }
        i := i + 1;
      }
      assert Values(criteria)[..|criteria|] == Values(criteria);
    }

    /**
     * Every record, on the handle as it is: the criteria are not applied.
     * `all` is a model's method; a builder handle has none and raises.
     */
    method All(columns: seq<Column> := DefaultColumns) returns (r: Result<Execution, RepositoryError>)
      modifies this
      ensures criteria == old(criteria) && skipCriteria == old(skipCriteria)
      ensures !IsModel(old(entity)) ==> r == Failure(BadMethodCall("all")) && entity == old(entity)
      ensures IsModel(old(entity)) ==> EndsWithMakeEntity(r, old(entity))
      ensures r.Success? ==> r.value == Executed(Operation.All(columns), old(entity))
    {
      if !IsModel(entity) {
        return Failure(BadMethodCall("all"));
      }
      var results := Executed(Operation.All(columns), entity);
      var made := MakeEntity();
      r := if made.Pass? then Success(results) else Failure(made.error);
    }

    method Get(columns: seq<Column> := DefaultColumns) returns (r: Result<Execution, RepositoryError>)
      modifies this
      ensures criteria == old(criteria) && skipCriteria == old(skipCriteria)
      ensures EndsWithMakeEntity(r, old(Applied()))
      ensures r.Success? ==> r.value == Executed(Operation.Get(columns), old(Applied()))
    {
      ApplyCriteria();
      var results := Executed(Operation.Get(columns), entity);
      var made := MakeEntity();
      r := if made.Pass? then Success(results) else Failure(made.error);
    }

    method First(columns: seq<Column> := DefaultColumns) returns (r: Result<Execution, RepositoryError>)
      modifies this
      ensures criteria == old(criteria) && skipCriteria == old(skipCriteria)
      ensures EndsWithMakeEntity(r, old(Applied()))
      ensures r.Success? ==> r.value == Executed(Operation.First(columns), old(Applied()))
    {
      ApplyCriteria();
      var results := Executed(Operation.First(columns), entity);
      var made := MakeEntity();
      r := if made.Pass? then Success(results) else Failure(made.error);
    }

    /**
     * A new record from the handle, saved; the handle holds the record until
     * makeEntity replaces it. `newInstance` is a model's method; a builder
     * handle has none and raises before anything is assigned.
     */
    method Create(attributes: WhereMap := []) returns (r: Result<Execution, RepositoryError>)
      modifies this
      ensures criteria == old(criteria) && skipCriteria == old(skipCriteria)
      ensures !IsModel(old(entity)) ==> r == Failure(BadMethodCall("newInstance")) && entity == old(entity)
      ensures IsModel(old(entity)) ==> EndsWithMakeEntity(r, Then(old(entity), Record("create")))
      ensures r.Success? ==> r.value == Executed(Operation.Create(attributes), old(entity))
    {
      if !IsModel(entity) {
        return Failure(BadMethodCall("newInstance"));
      }
      var results := Executed(Operation.Create(attributes), entity);
      entity := Then(entity, Record("create"));
      var made := MakeEntity();
      r := if made.Pass? then Success(results) else Failure(made.error);
    }

    method UpdateOrCreate(where: WhereMap := [], values: WhereMap := []) returns (r: Result<Execution, RepositoryError>)
      modifies this
      ensures criteria == old(criteria) && skipCriteria == old(skipCriteria)
      ensures EndsWithMakeEntity(r, Then(old(entity), Record("updateOrCreate")))
      ensures r.Success? ==> r.value == Executed(Operation.UpdateOrCreate(where, values), old(entity))
    {
      var results := Executed(Operation.UpdateOrCreate(where, values), entity);
      entity := Then(entity, Record("updateOrCreate"));
      var made := MakeEntity();
      r := if made.Pass? then Success(results) else Failure(made.error);
    }

    /**
     * `findOrFail($id)`, fill, save. `found` is the ORM's answer to
     * findOrFail; when it raises, the handle keeps what the lookup did to it.
     */
    method Update(id: int, attributes: WhereMap, found: bool) returns (r: Result<Execution, RepositoryError>)
      modifies this
      ensures criteria == old(criteria) && skipCriteria == old(skipCriteria)
      ensures !found ==> r == Failure(ModelNotFound(id)) && entity == FindOrFailLeft(old(entity), id)
      ensures found ==> EndsWithMakeEntity(r, Then(old(entity), Record("update")))
      ensures found && r.Success? ==> r.value == Executed(Operation.Update(id, attributes), old(entity))
    {
      if !found {
        entity := FindOrFailLeft(entity, id);
        return Failure(ModelNotFound(id));
      }
      var results := Executed(Operation.Update(id, attributes), entity);
      entity := Then(entity, Record("update"));
      var made := MakeEntity();
      r := if made.Pass? then Success(results) else Failure(made.error);
    }

    /**
     * `findOrFail($id)`, then delete that record. The answer is the
     * repository itself; the deletion shows only as the record left on the
     * handle should makeEntity fail.
     */
    method Delete(id: int, found: bool) returns (r: Result<Repository, RepositoryError>)
      modifies this
      ensures criteria == old(criteria) && skipCriteria == old(skipCriteria)
      ensures !found ==> r == Failure(ModelNotFound(id)) && entity == FindOrFailLeft(old(entity), id)
      ensures found ==> EndsWithMakeEntity(r, Then(old(entity), Record("delete")))
      ensures r.Success? ==> r.value == this
    {
      if !found {
        entity := FindOrFailLeft(entity, id);
        return Failure(ModelNotFound(id));
      }
      entity := Then(entity, Record("delete"));
      var made := MakeEntity();
      r := if made.Pass? then Success(this) else Failure(made.error);
    }

    /**
     * The first record matching `where`, or a new unsaved one; the criteria
     * are not applied. A builder handle keeps the `where($attributes)` and the
     * `take(1)` of `first` that the lookup made on it.
     */
    method FirstOrNew(where: WhereMap) returns (r: Result<Execution, RepositoryError>)
      modifies this
      ensures criteria == old(criteria) && skipCriteria == old(skipCriteria)
      ensures EndsWithMakeEntity(r, FirstOrNewLeft(old(entity), where))
      ensures r.Success? ==> r.value == Executed(Operation.FirstOrNew(where), old(entity))
    {
      var results := Executed(Operation.FirstOrNew(where), entity);
      entity := FirstOrNewLeft(entity, where);
      var made := MakeEntity();
      r := if made.Pass? then Success(results) else Failure(made.error);
    }

    /** orderBy, with, withTrashed, onlyTrashed, the relation-existence family and withCount: the handle is replaced by the builder's answer. */
    method Modify(m: Modifier)
      modifies this
      ensures entity == Then(old(entity), Step.Modify(m))
      ensures criteria == old(criteria) && skipCriteria == old(skipCriteria)
    {
      entity := Then(entity, Step.Modify(m));
    }

    /**
     * `where($where)->get($columns)` on the applied handle. A builder takes
     * the where call in place, so the handle a failing makeEntity leaves
     * behind holds it; the same goes for findWhereIn, findWhereNotIn and
     * chunk's select.
     */
    method FindWhere(where: WhereMap, columns: seq<Column> := DefaultColumns) returns (r: Result<Execution, RepositoryError>)
      modifies this
      ensures criteria == old(criteria) && skipCriteria == old(skipCriteria)
      ensures EndsWithMakeEntity(r, CalledOn(old(Applied()), Where(Pairs(where, And))))
      ensures r.Success? ==> r.value == Executed(Operation.Get(columns), Then(old(Applied()), Where(Pairs(where, And))))
    {
      ApplyCriteria();
      var results := Executed(Operation.Get(columns), Then(entity, Where(Pairs(where, And))));
      entity := CalledOn(entity, Where(Pairs(where, And)));
      var made := MakeEntity();
      r := if made.Pass? then Success(results) else Failure(made.error);
    }

    /** As written: `$columns` is accepted and ignored. */
    method FindWhereIn(column: Column, values: seq<Value>, columns: seq<Column> := DefaultColumns) returns (r: Result<Execution, RepositoryError>)
      modifies this
      ensures criteria == old(criteria) && skipCriteria == old(skipCriteria)
      ensures EndsWithMakeEntity(r, CalledOn(old(Applied()), Where(In(column, values))))
      ensures r.Success? ==> r.value == FindWhereInRequest(old(Applied()), column, values, columns)
    {
      ApplyCriteria();
      var results := Executed(Operation.Get(DefaultColumns), Then(entity, Where(In(column, values))));
      entity := CalledOn(entity, Where(In(column, values)));
      var made := MakeEntity();
      r := if made.Pass? then Success(results) else Failure(made.error);
    }

    /** findWhereIn with the columns passed on to `get`, as in findWhereNotIn. */
    method FindWhereInIntended(column: Column, values: seq<Value>, columns: seq<Column> := DefaultColumns) returns (r: Result<Execution, RepositoryError>)
      modifies this
      ensures criteria == old(criteria) && skipCriteria == old(skipCriteria)
      ensures EndsWithMakeEntity(r, CalledOn(old(Applied()), Where(In(column, values))))
      ensures r.Success? ==> r.value == FindWhereInRequestIntended(old(Applied()), column, values, columns)
    {
      ApplyCriteria();
      var results := Executed(Operation.Get(columns), Then(entity, Where(In(column, values))));
      entity := CalledOn(entity, Where(In(column, values)));
      var made := MakeEntity();
      r := if made.Pass? then Success(results) else Failure(made.error);
    }

    method FindWhereNotIn(column: Column, values: seq<Value>, columns: seq<Column> := DefaultColumns) returns (r: Result<Execution, RepositoryError>)
      modifies this
      ensures criteria == old(criteria) && skipCriteria == old(skipCriteria)
      ensures EndsWithMakeEntity(r, CalledOn(old(Applied()), Where(NotIn(column, values))))
      ensures r.Success? ==> r.value == Executed(Operation.Get(columns), Then(old(Applied()), Where(NotIn(column, values))))
    {
      ApplyCriteria();
      var results := Executed(Operation.Get(columns), Then(entity, Where(NotIn(column, values))));
      entity := CalledOn(entity, Where(NotIn(column, values)));
      var made := MakeEntity();
      r := if made.Pass? then Success(results) else Failure(made.error);
    }

    /** `select($columns)->chunk($count, $callback)`; the callback is user code, kept by name. */
    method Chunk(count: int, callback: string, columns: seq<Column> := DefaultColumns) returns (r: Result<Execution, RepositoryError>)
      modifies this
      ensures criteria == old(criteria) && skipCriteria == old(skipCriteria)
      ensures EndsWithMakeEntity(r, CalledOn(old(Applied()), Select(columns)))
      ensures r.Success? ==> r.value == Executed(Operation.Chunk(count, callback), Then(old(Applied()), Select(columns)))
    {
      ApplyCriteria();
      var results := Executed(Operation.Chunk(count, callback), Then(entity, Select(columns)));
      entity := CalledOn(entity, Select(columns));
      var made := MakeEntity();
      r := if made.Pass? then Success(results) else Failure(made.error);
    }

    method Count(columns: seq<Column> := DefaultColumns) returns (r: Result<Execution, RepositoryError>)
      modifies this
      ensures criteria == old(criteria) && skipCriteria == old(skipCriteria)
      ensures EndsWithMakeEntity(r, old(Applied()))
      ensures r.Success? ==> r.value == Executed(Operation.Count(columns), old(Applied()))
    {
      ApplyCriteria();
      var results := Executed(Operation.Count(columns), entity);
      var made := MakeEntity();
      r := if made.Pass? then Success(results) else Failure(made.error);
    }

    method Sum(column: Column) returns (r: Result<Execution, RepositoryError>)
      modifies this
      ensures criteria == old(criteria) && skipCriteria == old(skipCriteria)
      ensures EndsWithMakeEntity(r, old(Applied()))
      ensures r.Success? ==> r.value == Executed(Operation.Sum(column), old(Applied()))
    {
      ApplyCriteria();
      var results := Executed(Operation.Sum(column), entity);
      var made := MakeEntity();
      r := if made.Pass? then Success(results) else Failure(made.error);
    }

    method Paginate(perPage: Option<int> := None, columns: seq<Column> := DefaultColumns, pageName: string := "page", page: Option<int> := None)
      returns (r: Result<Execution, RepositoryError>)
      modifies this
      ensures criteria == old(criteria) && skipCriteria == old(skipCriteria)
      ensures EndsWithMakeEntity(r, old(Applied()))
      ensures r.Success? ==> r.value == Executed(Operation.Paginate(perPage, columns, pageName, page), old(Applied()))
    {
      ApplyCriteria();
      var results := Executed(Operation.Paginate(perPage, columns, pageName, page), entity);
      var made := MakeEntity();
      r := if made.Pass? then Success(results) else Failure(made.error);
    }

    method SimplePaginate(perPage: Option<int> := None, columns: seq<Column> := DefaultColumns, pageName: string := "page", page: Option<int> := None)
      returns (r: Result<Execution, RepositoryError>)
      modifies this
      ensures criteria == old(criteria) && skipCriteria == old(skipCriteria)
      ensures EndsWithMakeEntity(r, old(Applied()))
      ensures r.Success? ==> r.value == Executed(Operation.SimplePaginate(perPage, columns, pageName, page), old(Applied()))
    {
      ApplyCriteria();
      var results := Executed(Operation.SimplePaginate(perPage, columns, pageName, page), entity);
      var made := MakeEntity();
      r := if made.Pass? then Success(results) else Failure(made.error);
    }
  }
}
