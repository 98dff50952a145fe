/**
 * Properties of call sequences: what a client observes when it chains
 * repository calls, with and without the cache decorator. Each method runs
 * the calls in order and its contract states what the last one returns.
 */
module Scenarios {
  import opened Wrappers
  import opened QueryBuilder
  import opened Criteria
  import opened CriteriaStack
  import opened Repositories
  import opened CacheKeys
  import opened CachedRepositories

  /** After clearCriteria, a get runs on a fresh handle with nothing applied. */
  method ClearThenGet(repo: Repository, columns: seq<Column>) returns (r: Result<Execution, RepositoryError>)
    requires repo.entityClass in repo.app.models
    modifies repo
    ensures r == Success(Executed(Operation.Get(columns), Fresh(repo.entityClass)))
    ensures repo.criteria == [] && repo.entity == Fresh(repo.entityClass)
  {
    var cleared := repo.ClearCriteria();
    r := repo.Get(columns);
  }

  /** With criteria skipped, a get runs on the handle as it was, whatever criteria are pushed. */
  method SkipCriteriaThenGet(repo: Repository, columns: seq<Column>) returns (r: Result<Execution, RepositoryError>)
    requires repo.entityClass in repo.app.models
    modifies repo
    ensures r == Success(Executed(Operation.Get(columns), old(repo.entity)))
    ensures repo.criteria == old(repo.criteria) && repo.skipCriteria
  {
    repo.SkipCriteria(true);
    r := repo.Get(columns);
  }

  /** A pushed criterion is applied after all those pushed before it. */
  method PushThenGet(repo: Repository, c: Criterion, columns: seq<Column>) returns (r: Result<Execution, RepositoryError>)
    requires repo.entityClass in repo.app.models && !repo.skipCriteria
    modifies repo
    ensures r == Success(Executed(Operation.Get(columns), ApplyOne(c, old(repo.Applied()))))
    ensures repo.criteria == old(repo.criteria) + [Item(NextKey(old(repo.criteria)), c)]
  {
    ghost var before := Values(repo.criteria);
    ghost var item := Item(NextKey(repo.criteria), c);
    ValuesAppend(repo.criteria, [item]);
    repo.PushCriteria(c);
    assert (before + [c])[..|before|] == before;
    r := repo.Get(columns);
  }

  /** After popCriteria, a get applies exactly the criteria of the other classes, in their order, to a fresh handle. */
  method PopThenGet(repo: Repository, name: string, columns: seq<Column>) returns (r: Result<Execution, RepositoryError>)
    requires repo.entityClass in repo.app.models && !repo.skipCriteria
    modifies repo
    ensures r == Success(Executed(Operation.Get(columns), ApplyAll(Reject(Values(old(repo.criteria)), name), Fresh(repo.entityClass))))
  {
    RejectItemsValues(repo.criteria, name);
    var popped := repo.PopCriteria(name);
    r := repo.Get(columns);
  }

  /** The criteria survive a terminal operation: a second get applies them again, to the fresh handle. */
  method GetTwice(repo: Repository, columns: seq<Column>) returns (r1: Result<Execution, RepositoryError>, r2: Result<Execution, RepositoryError>)
    requires repo.entityClass in repo.app.models && !repo.skipCriteria
    modifies repo
    ensures r1 == Success(Executed(Operation.Get(columns), ApplyAll(Values(old(repo.criteria)), old(repo.entity))))
    ensures r2 == Success(Executed(Operation.Get(columns), ApplyAll(Values(old(repo.criteria)), Fresh(repo.entityClass))))
  {
    r1 := repo.Get(columns);
    r2 := repo.Get(columns);
  }

  /** Two pushes on an empty stack take keys 0 and 1; popping the first class leaves the second under key 1. */
  lemma PopAfterTwoPushes(first: Criterion, second: Criterion)
    requires ClassName(first) != ClassName(second)
    ensures NextKey([]) == 0 && NextKey([Item(0, first)]) == 1
    ensures RejectItems([Item(0, first), Item(1, second)], ClassName(first)) == [Item(1, second)]
  {
    assert [Item(0, first)][..0] == [];
    assert [Item(0, first), Item(1, second)][..1] == [Item(0, first)];
    assert RejectItems([Item(0, first)], ClassName(first)) == [];
  }

  /** The serialized Collection tells a criterion under key 1 from the same criterion under key 0. */
  lemma KeyGapSerializesApart(codec: Codec, c: Criterion)
    requires Hashable(c)
    ensures CriteriaCollection(codec, [Item(1, c)]) != CriteriaCollection(codec, [Item(0, c)])
  {
    assert Fingerprints(codec, [Item(1, c)])[0].0 == 1;
    assert Fingerprints(codec, [Item(0, c)])[0].0 == 0;
  }

  /**
   * popCriteria keeps the survivors' keys: after two pushes and a pop of the
   * first class, the second criterion sits under key 1, where a push on an
   * empty stack puts it under key 0, and the cache serializes the two stacks
   * from different values.
   */
  method PopLeavesKeyGap(repo: Repository, codec: Codec, first: Criterion, second: Criterion) returns (afresh: seq<Item>)
    requires repo.criteria == [] && ClassName(first) != ClassName(second)
    modifies repo
    ensures repo.criteria == [Item(1, second)]
    ensures afresh == [Item(NextKey([]), second)] == [Item(0, second)]
    ensures Hashable(second) ==> CriteriaCollection(codec, repo.criteria) != CriteriaCollection(codec, afresh)
  {
    PopAfterTwoPushes(first, second);
    repo.PushCriteria(first);
    repo.PushCriteria(second);
    assert repo.criteria == [Item(0, first), Item(1, second)];
    var popped := repo.PopCriteria(ClassName(first));
    afresh := [Item(0, second)];
    if Hashable(second) {
      KeyGapSerializesApart(codec, second);
    }
  }

  /** The same cached read twice: the second is answered from the store with the first one's result. */
  method RepeatedReadHits(c: CachedRepository, env: Env, codec: Codec, columns: seq<Column>)
    returns (r1: Result<Execution, RepositoryError>, r2: Result<Execution, RepositoryError>)
    requires c.inner.entityClass in c.inner.app.models
    requires !c.skipCache && CacheActive(env.settings)
    modifies c.inner, c.store
    ensures SerializedCriteria(codec, c.inner.criteria).Some? ==> r1.Success? && r2 == r1
    ensures SerializedCriteria(codec, c.inner.criteria).None? ==> r1 == r2 == Failure(KeyFailure(c.inner.criteria))
  {
    ghost var tag := c.CurrentTag(env);
    ghost var key := c.CurrentKey(codec, env, GetRead(columns));
    ReadKeyShape(codec, OperationName(GetRead(columns)), Arguments(GetRead(columns)), c.className, c.CurrentTag(env), c.inner.criteria);
    r1 := c.Get(env, codec, columns);
    assert c.CurrentKey(codec, env, GetRead(columns)) == key;
    if key.Some? {
      LookupStored(old(c.store.entries), tag, key.value, r1.value, tag, key.value);
    }
    r2 := c.Get(env, codec, columns);
  }

  /**
   * A write empties the tag, so the next cached read is run by the
   * repository: on the fresh handle after the write, or on the builder
   * handle the failed write left as it was.
   */
  method WriteThenRead(c: CachedRepository, env: Env, codec: Codec, attributes: WhereMap, columns: seq<Column>)
    returns (w: Result<Execution, RepositoryError>, r: Result<Execution, RepositoryError>)
    requires c.inner.entityClass in c.inner.app.models
    requires !c.skipCache && CacheActive(env.settings)
    modifies c.inner, c.store
    ensures w.Success? <==> IsModel(old(c.inner.entity))
    ensures w.Failure? ==> w.error == BadMethodCall("newInstance")
    ensures SerializedCriteria(codec, c.inner.criteria).Some? && w.Success? ==>
      r == Success(Request(GetRead(columns), Fresh(c.inner.entityClass), old(if c.inner.skipCriteria then Fresh(c.inner.entityClass) else ApplyAll(Values(c.inner.criteria), Fresh(c.inner.entityClass)))))
    ensures SerializedCriteria(codec, c.inner.criteria).Some? && w.Failure? ==>
      r == Success(Request(GetRead(columns), old(c.inner.entity), old(c.inner.Applied())))
    ensures SerializedCriteria(codec, c.inner.criteria).None? ==> r == Failure(KeyFailure(c.inner.criteria))
  {
    ghost var tag := c.CurrentTag(env);
    w := c.Create(env, attributes);
    ghost var key := c.CurrentKey(codec, env, GetRead(columns));
    ReadKeyShape(codec, OperationName(GetRead(columns)), Arguments(GetRead(columns)), c.className, c.CurrentTag(env), c.inner.criteria);
    if key.Some? {
      LookupFlushed(old(c.store.entries), tag, tag, key.value);
    }
    r := c.Get(env, codec, columns);
  }

  /** A modifier on the applied handle that was not on the handle before came from an application criterion of the stack. */
  lemma ModifierFromApplication(items: seq<Item>, q: Query, s: Step)
    requires s in ApplyAll(Values(items), q).steps && s.Modify? && s !in q.steps
    ensures exists it :: it in items && it.criterion.UserDefined? && s in it.criterion.calls
  {
    var cs := Values(items);
    ApplyAllAddsNoModifiers(cs, q);
    var u :| u in cs && u.UserDefined? && s in u.calls;
    var i :| 0 <= i < |cs| && cs[i] == u;
    assert items[i] in items;
  }

  /**
   * The key covers the call and the criteria but not the handle: after a
   * builder modifier, the same read is answered with the entry the plain
   * read stored, which was run without the modifier unless an application
   * criterion makes that very call.
   */
  method ModifierNotInKey(c: CachedRepository, env: Env, codec: Codec, columns: seq<Column>, m: Modifier)
    returns (r1: Result<Execution, RepositoryError>, r2: Result<Execution, RepositoryError>)
    requires c.inner.entityClass in c.inner.app.models
    requires !c.skipCache && CacheActive(env.settings)
    requires c.inner.entity == Fresh(c.inner.entityClass)
    requires c.CurrentTag(env) !in c.store.entries
    modifies c.inner, c.store
    ensures SerializedCriteria(codec, c.inner.criteria).Some? ==> r1.Success? && r2 == r1
    ensures r2.Success? && Modify(m) in r2.value.query.steps ==>
      exists it :: it in c.inner.criteria && it.criterion.UserDefined? && Modify(m) in it.criterion.calls
    ensures Modify(m) in (if c.inner.skipCriteria then Then(Fresh(c.inner.entityClass), Modify(m)) else ApplyAll(Values(c.inner.criteria), Then(Fresh(c.inner.entityClass), Modify(m)))).steps
  {
    ghost var tag := c.CurrentTag(env);
    ghost var key := c.CurrentKey(codec, env, GetRead(columns));
    ReadKeyShape(codec, OperationName(GetRead(columns)), Arguments(GetRead(columns)), c.className, c.CurrentTag(env), c.inner.criteria);
    r1 := c.Get(env, codec, columns);
    ghost var cs := Values(c.inner.criteria);
    if r1.Success? && Modify(m) in r1.value.query.steps && !c.inner.skipCriteria {
      ModifierFromApplication(c.inner.criteria, Fresh(c.inner.entityClass), Modify(m));
    }
    c.inner.Modify(m);
    assert c.CurrentKey(codec, env, GetRead(columns)) == key;
    if key.Some? {
      LookupStored(old(c.store.entries), tag, key.value, r1.value, tag, key.value);
    }
    r2 := c.Get(env, codec, columns);
    ghost var modified := Then(Fresh(c.inner.entityClass), Modify(m));
    assert Modify(m) in modified.steps;
    if !c.inner.skipCriteria {
      assert Extends(modified, ApplyAll(cs, modified));
    }
  }
}
