/**
 * The criterion classes: immutable value objects whose `apply` takes a
 * query handle and returns it with the criterion's filter added.
 *
 * One variant per class of the package; constructor defaults are the
 * classes' own. `UserDefined` stands for a criterion class written by an
 * application: it is known by its class name and field values, the builder
 * calls its `apply` adds (any of them, modifiers included), whether it
 * extends the package's abstract criterion base class, and, for the cache
 * key, whether PHP can serialize it and what it reads as a string.
 */
module Criteria {
  import opened Wrappers
  import opened QueryBuilder

  const CriteriaNamespace := "PacerIT\\LaravelRepository\\Repositories\\Criteria\\"

  /** The ORM model's creation-time column, `Model::CREATED_AT`. */
  const CreatedAt := "created_at"

  datatype Criterion =
    | DateCriteria(dateFrom: Option<Value>, dateTo: Option<Value>, column: Column := CreatedAt)
    | FindWhereCriteria(where: WhereMap)
    | OrWhereCriteria(where: WhereMap)
    | FindWhereInCriteria(column: Column, values: seq<Value>)
    | FindWhereNotInCriteria(column: Column, notIn: seq<Value>)
    | FindWhereOrWhereCriteria(where: WhereMap, orWhere: seq<WhereMap> := [])
    | LimitCriteria(limit: int)
    | OffsetCriteria(offset: int)
    | Select2Criteria(searchPhrase: string, select: seq<Column>, searchField: Column, limit: int := 5)
      /**
       * An application's criterion: its class, its declared properties with
       * their values, the builder calls its `apply` makes, whether it extends
       * the base class, whether `serialize` accepts it, and its `__toString`
       * form, `None` when the class has no `__toString`.
       */
    | UserDefined(className: string, fields: seq<(string, Value)>, calls: seq<Step>, extendsBase: bool, serializable: bool, text: Option<string>)

  /** `get_class($criterion)`: the fully qualified class name. */
  function ClassName(c: Criterion): string {
    match c
    case DateCriteria(_, _, _) => CriteriaNamespace + "DateCriteria"
    case FindWhereCriteria(_) => CriteriaNamespace + "FindWhereCriteria"
    case OrWhereCriteria(_) => CriteriaNamespace + "OrWhereCriteria"
    case FindWhereInCriteria(_, _) => CriteriaNamespace + "FindWhereInCriteria"
    case FindWhereNotInCriteria(_, _) => CriteriaNamespace + "FindWhereNotInCriteria"
    case FindWhereOrWhereCriteria(_, _) => CriteriaNamespace + "FindWhereOrWhereCriteria"
    case LimitCriteria(_) => CriteriaNamespace + "LimitCriteria"
    case OffsetCriteria(_) => CriteriaNamespace + "OffsetCriteria"
    case Select2Criteria(_, _, _, _) => CriteriaNamespace + "Select2Criteria"
    case UserDefined(name, _, _, _, _, _) => name
  }

  /** Whether the criterion is an instance of the abstract criterion base class. */
  predicate ExtendsBase(c: Criterion) {
    !c.UserDefined? || c.extendsBase
  }

  /** The pattern Select2Criteria searches with: the phrase, verbatim and unescaped, between two `%`. */
  function LikePattern(phrase: string): (p: string)
    ensures |p| == |phrase| + 2 && p[0] == '%' && p[|p| - 1] == '%'
    ensures p[1..|p| - 1] == phrase
  {
    "%" + phrase + "%"
  }

  /**
   * The clauses FindWhereOrWhereCriteria puts inside its parentheses: the
   * where-map first, then one or-where per element of `orWhere`, in order.
   */
  function OrGroup(where: WhereMap, orWhere: seq<WhereMap>): (g: seq<Clause>)
    ensures |g| == |orWhere| + 1 && g[0] == Pairs(where, And)
    ensures forall i :: 0 <= i < |orWhere| ==> g[i + 1] == Pairs(orWhere[i], Or)
  {
    if orWhere == [] then [Pairs(where, And)]
    else OrGroup(where, orWhere[..|orWhere| - 1]) + [Pairs(orWhere[|orWhere| - 1], Or)]
  }

  /** The closure FindWhereOrWhereCriteria hands to `where`: it calls `orWhere` on the nested query once per element. */
  method BuildOrGroup(where: WhereMap, orWhere: seq<WhereMap>) returns (group: seq<Clause>)
    ensures group == OrGroup(where, orWhere)
  {
    group := [Pairs(where, And)];
    for i := 0 to |orWhere|
      invariant group == OrGroup(where, orWhere[..i])
    {
      assert orWhere[..i + 1][..i] == orWhere[..i];
      group := group + [Pairs(orWhere[i], Or)];
    }
    assert orWhere[..|orWhere|] == orWhere;
  }

  /** `$criterion->apply($entity)`: only adds builder calls to the handle it is given. */
  function Apply(c: Criterion, q: Query): (r: Query)
    ensures Extends(q, r)
  {
    match c
    case DateCriteria(dateFrom, dateTo, column) =>
      var lower := if dateFrom.Some? then Then(q, Where(Basic(column, ">=", dateFrom.value, And))) else q;
      if dateTo.Some? then Then(lower, Where(Basic(column, "<=", dateTo.value, And))) else lower
    case FindWhereCriteria(where) => Then(q, Where(Pairs(where, And)))
    case OrWhereCriteria(where) => Then(q, Where(Pairs(where, Or)))
    case FindWhereInCriteria(column, values) => Then(q, Where(In(column, values)))
    case FindWhereNotInCriteria(column, notIn) => Then(q, Where(NotIn(column, notIn)))
    case FindWhereOrWhereCriteria(where, orWhere) => Then(q, Where(Nested(OrGroup(where, orWhere), And)))
    case LimitCriteria(limit) => Then(q, Limit(limit))
    case OffsetCriteria(offset) => Then(q, Offset(offset))
    case Select2Criteria(phrase, select, field, limit) =>
      Then(Then(Then(q, Select(select)), Where(Basic(field, "like", LikePattern(phrase), And))), Limit(limit))
    case UserDefined(_, _, calls, _, _, _) => Query(q.base, q.steps + calls)
  }

  /** The criterion makes no modifier call: true of every class of the package. */
  predicate AddsNoModifier(c: Criterion) {
    c.UserDefined? ==> forall s :: s in c.calls ==> !s.Modify?
  }

  /** What one more builder call does to the views of a handle. */
  lemma ThenViews(q: Query, s: Step)
    ensures Wheres(Then(q, s).steps) == Wheres(q.steps) + (if s.Where? then [s.clause] else [])
    ensures LimitOf(Then(q, s).steps) == if s.Limit? then Some(s.limit) else LimitOf(q.steps)
    ensures OffsetOf(Then(q, s).steps) == if s.Offset? then Some(s.offset) else OffsetOf(q.steps)
    ensures ColumnsOf(Then(q, s).steps) == if s.Select? then Some(s.columns) else ColumnsOf(q.steps)
  {
    assert (q.steps + [s])[..|q.steps|] == q.steps;
  }

  /** Limit, offset and selected columns of `q` survive in `r`. */
  ghost predicate KeepsPaging(q: Query, r: Query) {
    LimitOf(r.steps) == LimitOf(q.steps) && OffsetOf(r.steps) == OffsetOf(q.steps) && ColumnsOf(r.steps) == ColumnsOf(q.steps)
  }

  /**
   * DateCriteria: a lower bound `column >= dateFrom` when dateFrom is given,
   * then an upper bound `column <= dateTo` when dateTo is given, both joined
   * with AND after the existing clauses; with neither the handle is returned
   * as it came.
   */
  lemma DateCriteriaApply(q: Query, dateFrom: Option<Value>, dateTo: Option<Value>, column: Column)
    ensures var r := Apply(DateCriteria(dateFrom, dateTo, column), q);
      && KeepsPaging(q, r)
      && (dateFrom.None? && dateTo.None? ==> r == q)
      && (dateFrom.Some? && dateTo.None? ==>
            Wheres(r.steps) == Wheres(q.steps) + [Basic(column, ">=", dateFrom.value, And)])
      && (dateFrom.None? && dateTo.Some? ==>
            Wheres(r.steps) == Wheres(q.steps) + [Basic(column, "<=", dateTo.value, And)])
      && (dateFrom.Some? && dateTo.Some? ==>
            Wheres(r.steps) == Wheres(q.steps) + [Basic(column, ">=", dateFrom.value, And), Basic(column, "<=", dateTo.value, And)])
  {
    var lower := if dateFrom.Some? then Then(q, Where(Basic(column, ">=", dateFrom.value, And))) else q;
    if dateFrom.Some? {
      ThenViews(q, Where(Basic(column, ">=", dateFrom.value, And)));
    }
    if dateTo.Some? {
      ThenViews(lower, Where(Basic(column, "<=", dateTo.value, And)));
    }
  }

  /** DateCriteria searches the creation-time column unless told otherwise. */
  lemma DateCriteriaDefaultColumn(q: Query, dateFrom: Value)
    ensures Wheres(Apply(DateCriteria(Some(dateFrom), None), q).steps) == Wheres(q.steps) + [Basic("created_at", ">=", dateFrom, And)]
  {
    DateCriteriaApply(q, Some(dateFrom), None, CreatedAt);
  }

  /** FindWhereCriteria: exactly one AND-joined where-map clause, after the existing ones. */
  lemma FindWhereCriteriaApply(q: Query, where: WhereMap)
    ensures var r := Apply(FindWhereCriteria(where), q);
      && |r.steps| == |q.steps| + 1
      && Wheres(r.steps) == Wheres(q.steps) + [Pairs(where, And)]
      && KeepsPaging(q, r)
  {
    ThenViews(q, Where(Pairs(where, And)));
  }

  /** OrWhereCriteria: exactly one where-map clause joined with OR, not AND. */
  lemma OrWhereCriteriaApply(q: Query, where: WhereMap)
    ensures var r := Apply(OrWhereCriteria(where), q);
      && |r.steps| == |q.steps| + 1
      && Wheres(r.steps) == Wheres(q.steps) + [Pairs(where, Or)]
      && KeepsPaging(q, r)
  {
    ThenViews(q, Where(Pairs(where, Or)));
  }

  /** FindWhereInCriteria: exactly one where-in clause over the stored column and values. */
  lemma FindWhereInCriteriaApply(q: Query, column: Column, values: seq<Value>)
    ensures var r := Apply(FindWhereInCriteria(column, values), q);
      && |r.steps| == |q.steps| + 1
      && Wheres(r.steps) == Wheres(q.steps) + [In(column, values)]
      && KeepsPaging(q, r)
  {
    ThenViews(q, Where(In(column, values)));
  }

  /** FindWhereNotInCriteria: exactly one where-not-in clause over the stored column and list. */
  lemma FindWhereNotInCriteriaApply(q: Query, column: Column, notIn: seq<Value>)
    ensures var r := Apply(FindWhereNotInCriteria(column, notIn), q);
      && |r.steps| == |q.steps| + 1
      && Wheres(r.steps) == Wheres(q.steps) + [NotIn(column, notIn)]
      && KeepsPaging(q, r)
  {
    ThenViews(q, Where(NotIn(column, notIn)));
  }

  /**
   * FindWhereOrWhereCriteria: one parenthesised group AND-ed after the
   * existing clauses; it opens with the where-map and holds one or-where per
   * element of `orWhere`, in order.
   */
  lemma FindWhereOrWhereCriteriaApply(q: Query, where: WhereMap, orWhere: seq<WhereMap>)
    ensures var r := Apply(FindWhereOrWhereCriteria(where, orWhere), q);
      && |r.steps| == |q.steps| + 1
      && KeepsPaging(q, r)
      && |Wheres(r.steps)| == |Wheres(q.steps)| + 1
      && Wheres(r.steps)[..|Wheres(q.steps)|] == Wheres(q.steps)
      && var last := Wheres(r.steps)[|Wheres(q.steps)|];
         && last.Nested? && last.boolean == And
         && |last.group| == 1 + |orWhere|
         && last.group[0] == Pairs(where, And)
         && (forall i :: 0 <= i < |orWhere| ==> last.group[i + 1] == Pairs(orWhere[i], Or))
  {
    ThenViews(q, Where(Nested(OrGroup(where, orWhere), And)));
  }

  /** With the default empty `orWhere`, the group holds the where-map alone. */
  lemma FindWhereOrWhereCriteriaDefault(q: Query, where: WhereMap)
    ensures Wheres(Apply(FindWhereOrWhereCriteria(where), q).steps) == Wheres(q.steps) + [Nested([Pairs(where, And)], And)]
  {
    ThenViews(q, Where(Nested(OrGroup(where, []), And)));
  }

  /** LimitCriteria: the handle's limit becomes the stored one; no where clause is added. */
  lemma LimitCriteriaApply(q: Query, limit: int)
    ensures var r := Apply(LimitCriteria(limit), q);
      && LimitOf(r.steps) == Some(limit)
      && Wheres(r.steps) == Wheres(q.steps)
      && OffsetOf(r.steps) == OffsetOf(q.steps) && ColumnsOf(r.steps) == ColumnsOf(q.steps)
  {
    ThenViews(q, Limit(limit));
  }

  /** OffsetCriteria: the handle's offset becomes the stored one; no where clause is added. */
  lemma OffsetCriteriaApply(q: Query, offset: int)
    ensures var r := Apply(OffsetCriteria(offset), q);
      && OffsetOf(r.steps) == Some(offset)
      && Wheres(r.steps) == Wheres(q.steps)
      && LimitOf(r.steps) == LimitOf(q.steps) && ColumnsOf(r.steps) == ColumnsOf(q.steps)
  {
    ThenViews(q, Offset(offset));
  }

  /**
   * Select2Criteria: select exactly the stored fields, then one AND-joined
   * `searchField like %phrase%`, then the stored limit, in that order.
   */
  lemma Select2CriteriaApply(q: Query, phrase: string, select: seq<Column>, field: Column, limit: int)
    ensures var r := Apply(Select2Criteria(phrase, select, field, limit), q);
      && r.steps[|q.steps|..] == [Select(select), Where(Basic(field, "like", LikePattern(phrase), And)), Limit(limit)]
      && ColumnsOf(r.steps) == Some(select)
      && Wheres(r.steps) == Wheres(q.steps) + [Basic(field, "like", "%" + phrase + "%", And)]
      && LimitOf(r.steps) == Some(limit)
      && OffsetOf(r.steps) == OffsetOf(q.steps)
  {
    var like := Basic(field, "like", LikePattern(phrase), And);
    var q1 := Then(q, Select(select));
    var q2 := Then(q1, Where(like));
    var r := Then(q2, Limit(limit));
    assert r == Apply(Select2Criteria(phrase, select, field, limit), q);
    assert r.steps == q.steps + [Select(select), Where(like), Limit(limit)];
    ThenViews(q, Select(select));
    ThenViews(q1, Where(like));
    ThenViews(q2, Limit(limit));
  }

  /** Select2Criteria returns at most five rows unless told otherwise. */
  lemma Select2CriteriaDefaultLimit(q: Query, phrase: string, select: seq<Column>, field: Column)
    ensures LimitOf(Apply(Select2Criteria(phrase, select, field), q).steps) == Some(5)
  {
    Select2CriteriaApply(q, phrase, select, field, 5);
  }

  /** DateCriteria adds where clauses and nothing else. */
  lemma DateCriteriaAddsWheres(q: Query, dateFrom: Option<Value>, dateTo: Option<Value>, column: Column)
    ensures forall t :: t in Apply(DateCriteria(dateFrom, dateTo, column), q).steps[|q.steps|..] ==> t.Where?
  {
    var lower := if dateFrom.Some? then [Where(Basic(column, ">=", dateFrom.value, And))] else [];
    var upper := if dateTo.Some? then [Where(Basic(column, "<=", dateTo.value, And))] else [];
    assert Apply(DateCriteria(dateFrom, dateTo, column), q).steps == q.steps + lower + upper;
    assert Apply(DateCriteria(dateFrom, dateTo, column), q).steps[|q.steps|..] == lower + upper;
  }

  /** The steps a criterion of the package adds are never builder modifiers; an application's may be. */
  lemma ApplyAddsNoModifiers(c: Criterion, q: Query, s: Step)
    requires s in Apply(c, q).steps[|q.steps|..]
    ensures !s.Modify? || (c.UserDefined? && s in c.calls)
    ensures AddsNoModifier(c) ==> !s.Modify?
  {
    var added := Apply(c, q).steps[|q.steps|..];
    match c
    case DateCriteria(from, to, column) => DateCriteriaAddsWheres(q, from, to, column);
    case Select2Criteria(phrase, select, field, limit) => Select2CriteriaApply(q, phrase, select, field, limit);
    case FindWhereCriteria(where) => assert added == [Where(Pairs(where, And))];
    case OrWhereCriteria(where) => assert added == [Where(Pairs(where, Or))];
    case FindWhereInCriteria(column, values) => assert added == [Where(In(column, values))];
    case FindWhereNotInCriteria(column, notIn) => assert added == [Where(NotIn(column, notIn))];
    case FindWhereOrWhereCriteria(where, orWhere) => assert added == [Where(Nested(OrGroup(where, orWhere), And))];
    case LimitCriteria(limit) => assert added == [Limit(limit)];
    case OffsetCriteria(offset) => assert added == [Offset(offset)];
    case UserDefined(_, _, calls, _, _, _) => assert added == calls;
  }
}
