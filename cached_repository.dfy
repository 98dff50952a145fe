/**
 * The cache decorator over a repository: reads go through a tagged store
 * keyed by the call and the pushed criteria, writes empty the current tag
 * before they run, and two flags, once set, switch the cache or the user
 * part of the tag off.
 *
 * The decorator is a trait mixed into the repository class in the source;
 * here it is an object holding the repository it decorates, with the two
 * flags as its own fields. The store is the application-wide tagged cache:
 * a map from tag to a map from key to the stored result.
 */
module CachedRepositories {
  import opened Wrappers
  import opened QueryBuilder
  import opened Criteria
  import opened CriteriaStack
  import opened Repositories
  import opened CacheKeys

  type Entries = map<string, map<string, Execution>>

  /** The entry stored under `key` in the tag's section, if any. */
  function Lookup(entries: Entries, tag: string, key: string): (v: Option<Execution>)
    ensures v.Some? <==> tag in entries && key in entries[tag]
  {
    if tag in entries && key in entries[tag] then Some(entries[tag][key]) else None
  }

  /** The store after `put`: the tag's section gains or overwrites one entry. */
  function Stored(entries: Entries, tag: string, key: string, v: Execution): Entries {
    var section := if tag in entries then entries[tag] else map[];
    entries[tag := section[key := v]]
  }

  /** After a put, the entry reads back; every other entry, in any tag, reads as before. */
  lemma LookupStored(entries: Entries, tag: string, key: string, v: Execution, tag': string, key': string)
    ensures Lookup(Stored(entries, tag, key, v), tag', key') ==
      if tag' == tag && key' == key then Some(v) else Lookup(entries, tag', key')
  {
  }

  /** After a flush of one tag, every key under it misses and the other tags read as before. */
  lemma LookupFlushed(entries: Entries, tag: string, tag': string, key': string)
    ensures Lookup(entries - {tag}, tag', key') == if tag' == tag then None else Lookup(entries, tag', key')
  {
  }

  class CacheStore {
    var entries: Entries

    constructor ()
      ensures entries == map[]
    {
      entries := map[];
    }

    method Get(tag: string, key: string) returns (v: Option<Execution>)
      ensures v == Lookup(entries, tag, key)
    {
      v := if tag in entries && key in entries[tag] then Some(entries[tag][key]) else None;
    }

    method Put(tag: string, key: string, v: Execution)
      modifies this
      ensures entries == Stored(old(entries), tag, key, v)
    {
      var section := if tag in entries then entries[tag] else map[];
      entries := entries[tag := section[key := v]];
    }

    /** Drop every entry under the tag; the other tags keep theirs. */
    method Flush(tag: string)
      modifies this
      ensures entries == old(entries) - {tag}
    {
      entries := entries - {tag};
    }
  }

  /** The reads the decorator caches, with the arguments each takes. */
  datatype Read =
    | AllRead(columns: seq<Column>)
    | GetRead(columns: seq<Column>)
    | FirstRead(columns: seq<Column>)
    | FirstOrNewRead(where: WhereMap)
    | FindWhereRead(where: WhereMap, columns: seq<Column>)
      /** findWhereIn as the repository writes it, the columns dropped */
    | FindWhereInRead(column: Column, values: seq<Value>, columns: seq<Column>)
      /** findWhereIn with the columns selected, as the corrected repository runs it */
    | FindWhereInFixedRead(column: Column, values: seq<Value>, columns: seq<Column>)
    | FindWhereNotInRead(column: Column, values: seq<Value>, columns: seq<Column>)
    | PaginateRead(perPage: Option<int>, columns: seq<Column>, pageName: string, page: Option<int>)
    | SimplePaginateRead(perPage: Option<int>, columns: seq<Column>, pageName: string, page: Option<int>)

  /** The method name that opens the key, `__FUNCTION__`. */
  function OperationName(rd: Read): string {
    match rd
    case AllRead(_) => "all"
    case GetRead(_) => "get"
    case FirstRead(_) => "first"
    case FirstOrNewRead(_) => "firstOrNew"
    case FindWhereRead(_, _) => "findWhere"
    case FindWhereInRead(_, _, _) => "findWhereIn"
    case FindWhereInFixedRead(_, _, _) => "findWhereIn"
    case FindWhereNotInRead(_, _, _) => "findWhereNotIn"
    case PaginateRead(_, _, _, _) => "paginate"
    case SimplePaginateRead(_, _, _, _) => "simplePaginate"
  }

  function OptionalInt(v: Option<int>): PhpValue {
    match v
    case None => Null
    case Some(n) => Int(n)
  }

  /** The call's arguments, as `func_get_args` lists them with every parameter passed. */
  function Arguments(rd: Read): seq<PhpValue> {
    match rd
    case AllRead(columns) => [StrList(columns)]
    case GetRead(columns) => [StrList(columns)]
    case FirstRead(columns) => [StrList(columns)]
    case FirstOrNewRead(where) => [WhereValue(where)]
    case FindWhereRead(where, columns) => [WhereValue(where), StrList(columns)]
    case FindWhereInRead(column, values, columns) => [Str(column), StrList(values), StrList(columns)]
    case FindWhereInFixedRead(column, values, columns) => [Str(column), StrList(values), StrList(columns)]
    case FindWhereNotInRead(column, values, columns) => [Str(column), StrList(values), StrList(columns)]
    case PaginateRead(perPage, columns, pageName, page) => [OptionalInt(perPage), StrList(columns), Str(pageName), OptionalInt(page)]
    case SimplePaginateRead(perPage, columns, pageName, page) => [OptionalInt(perPage), StrList(columns), Str(pageName), OptionalInt(page)]
  }

  /** `all` and `firstOrNew` run on the handle as it is; the other reads apply the criteria first. */
  predicate AppliesCriteria(rd: Read) {
    !rd.AllRead? && !rd.FirstOrNewRead?
  }

  /** What the decorated repository hands the ORM for the read, given its handle before and after applyCriteria. */
  function Request(rd: Read, entity: Query, applied: Query): (e: Execution)
    ensures !AppliesCriteria(rd) ==> e.query == entity
    ensures rd.GetRead? || rd.FirstRead? || rd.PaginateRead? || rd.SimplePaginateRead? ==> e.query == applied
    ensures rd.FindWhereRead? || rd.FindWhereInRead? || rd.FindWhereInFixedRead? || rd.FindWhereNotInRead? ==> Extends(applied, e.query)
  {
    match rd
    case AllRead(columns) => Executed(Operation.All(columns), entity)
    case GetRead(columns) => Executed(Operation.Get(columns), applied)
    case FirstRead(columns) => Executed(Operation.First(columns), applied)
    case FirstOrNewRead(where) => Executed(Operation.FirstOrNew(where), entity)
    case FindWhereRead(where, columns) => Executed(Operation.Get(columns), Then(applied, Where(Pairs(where, And))))
    case FindWhereInRead(column, values, columns) => FindWhereInRequest(applied, column, values, columns)
    case FindWhereInFixedRead(column, values, columns) => FindWhereInRequestIntended(applied, column, values, columns)
    case FindWhereNotInRead(column, values, columns) => Executed(Operation.Get(columns), Then(applied, Where(NotIn(column, values))))
    case PaginateRead(perPage, columns, pageName, page) => Executed(Operation.Paginate(perPage, columns, pageName, page), applied)
    case SimplePaginateRead(perPage, columns, pageName, page) => Executed(Operation.SimplePaginate(perPage, columns, pageName, page), applied)
  }

  /**
   * The handle a read whose makeEntity fails leaves behind: the handle as it
   * was for `all`, the lookup's leftovers on it for `firstOrNew`, else the
   * applied one, holding the where call the read made on it in place.
   */
  function LeftOnFailure(rd: Read, entity: Query, applied: Query): Query {
    match rd
    case AllRead(_) => entity
    case FirstOrNewRead(where) => FirstOrNewLeft(entity, where)
    case FindWhereRead(where, _) => CalledOn(applied, Where(Pairs(where, And)))
    case FindWhereInRead(column, values, _) => CalledOn(applied, Where(In(column, values)))
    case FindWhereInFixedRead(column, values, _) => CalledOn(applied, Where(In(column, values)))
    case FindWhereNotInRead(column, values, _) => CalledOn(applied, Where(NotIn(column, values)))
    case _ => applied
  }

  /**
   * What is raised when no key can be derived: the `Error` of the first
   * criterion that neither serializes nor casts to a string, since `map`
   * reaches it before the Collection is serialized; else `serialize`
   * refusing the reflection objects.
   */
  function KeyFailure(criteria: seq<Item>): (e: RepositoryError)
    ensures !AllHashable(criteria) ==> exists i :: 0 <= i < |criteria| && !Hashable(criteria[i].criterion) && e == NotStringable(ClassName(criteria[i].criterion))
    ensures AllHashable(criteria) ==> e == NotSerializable(PropertyClass)
  {
    match FirstUnhashable(criteria)
    case Some(i) => NotStringable(ClassName(criteria[i].criterion))
    case None => NotSerializable(PropertyClass)
  }

  /** When a read skips the store: `all` consults only the skip flag, every other read also the active setting. */
  function Bypasses(rd: Read, skipCache: bool, settings: Settings): (b: bool)
    ensures rd.AllRead? ==> (b <==> skipCache)
    ensures !rd.AllRead? ==> (b <==> skipCache || settings.active != Some(true))
  {
    skipCache || (!rd.AllRead? && !CacheActive(settings))
  }

  /** With caching switched off in the configuration, `all` alone still reads through the store. */
  lemma AllIgnoresActiveFlag(settings: Settings, columns: seq<Column>)
    requires !CacheActive(settings)
    ensures !Bypasses(AllRead(columns), false, settings)
    ensures forall rd: Read :: !rd.AllRead? ==> Bypasses(rd, false, settings)
  {
  }

  /** The default setting is no caching: no read but `all` touches the store. */
  lemma DefaultsBypass(rd: Read)
    requires !rd.AllRead?
    ensures Bypasses(rd, false, Settings(None, None, None))
    ensures CacheTime(Settings(None, None, None)) == 3600 && CacheGuards(Settings(None, None, None)) == []
  {
  }

  function DecimalDigit(d: nat): char
    requires d < 10
  {
    "0123456789"[d]
  }

  /** The decimal form PHP gives an integer converted to a string. */
  function Decimal(n: int): (s: string)
    ensures s != []
    decreases if n < 0 then -n + 1 else n
  {
    if n < 0 then "-" + Decimal(-n)
    else if n < 10 then [DecimalDigit(n)]
    else Decimal(n / 10) + [DecimalDigit(n % 10)]
  }

  /**
   * A value passed where a function declares a `string` parameter, in PHP's
   * default coercive mode: strings pass, integers and booleans are converted,
   * and arrays, null and objects raise a TypeError naming the parameter.
   */
  function PassAsString(parameter: string, v: PhpValue): (r: Result<string, RepositoryError>)
    ensures v.Str? ==> r == Success(v.s)
    ensures v.List? || v.Assoc? || v.Null? || v.Object? ==> r == Failure(TypeError(parameter))
  {
    match v
    case Str(s) => Success(s)
    case Int(i) => Success(Decimal(i))
    case Bool(b) => Success(if b then "1" else "")
    case _ => Failure(TypeError(parameter))
  }

  class CachedRepository {
    const inner: Repository
    const store: CacheStore
    /** The concrete repository's class name, `get_class($this)`. */
    const className: string
    var skipCache: bool
    var skipUserTag: bool

    constructor (inner: Repository, store: CacheStore, className: string)
      ensures this.inner == inner && this.store == store && this.className == className
      ensures !skipCache && !skipUserTag
    {
      this.inner := inner;
      this.store := store;
      this.className := className;
      skipCache := false;
      skipUserTag := false;
    }

    /** Switch the cache off for this repository from now on; there is no way back. */
    method SkipCache()
      modifies this
      ensures skipCache && skipUserTag == old(skipUserTag)
    {
      skipCache := true;
    }

    /** Tag every later call as the anonymous user's, whoever is authenticated; there is no way back. */
    method SkipUserTag()
      modifies this
      ensures skipUserTag && skipCache == old(skipCache)
    {
      skipUserTag := true;
    }

    /** The tag the store sections this repository's entries under, for the given request. */
    function CurrentTag(env: Env): string
      reads this
    {
      Tag(Basename(className), UserSegment(skipUserTag, CacheGuards(env.settings), env.authenticated))
    }

    /** The tag starts with the basename and `_`; without a user it is `basename_0`. */
    lemma CurrentTagShape(env: Env)
      ensures skipUserTag ==> CurrentTag(env) == Basename(className) + "_0"
      ensures (forall g :: g in CacheGuards(env.settings) ==> g !in env.authenticated) ==> CurrentTag(env) == Basename(className) + "_0"
      ensures |CurrentTag(env)| > |Basename(className)| && CurrentTag(env)[..|Basename(className)| + 1] == Basename(className) + "_"
    {
    }

    /** The key of a read, made from the call, the tag and the criteria pushed at the time; `None` where serializing them throws. */
    function CurrentKey(codec: Codec, env: Env, rd: Read): Option<string>
      reads this, inner
    {
      ReadKey(codec, OperationName(rd), Arguments(rd), className, CurrentTag(env), inner.criteria)
    }

    /** `getTag`: the guards are asked in configured order, and the first authenticated one gives the id. */
    method GetTag(env: Env) returns (tag: string)
      ensures tag == CurrentTag(env)
      ensures skipUserTag ==> tag == Basename(className) + "_0"
    {
      var basename := Basename(className);
      if skipUserTag {
        return Tag(basename, "0");
      }
      var guards := CacheGuards(env.settings);
      assert CurrentTag(env) == Tag(basename, UserSegment(false, guards, env.authenticated));
      for i := 0 to |guards|
        invariant forall j :: 0 <= j < i ==> guards[j] !in env.authenticated
      {
        if guards[i] in env.authenticated {
          UserSegmentFirstGuard(guards, env.authenticated, i);
          return Tag(basename, env.authenticated[guards[i]]);
        }
      }
      FirstAuthenticatedIs(guards, env.authenticated, |guards|);
      return Tag(basename, "0");
    }

    /** The decorated repository ran the read: what it asked the ORM, and how its handle ended. */
    twostate predicate Delegated(rd: Read, new r: Result<Execution, RepositoryError>)
      reads inner, inner.app
    {
      && inner.criteria == old(inner.criteria)
      && inner.skipCriteria == old(inner.skipCriteria)
      && (if rd.AllRead? && !IsModel(old(inner.entity))
          then r == Failure(BadMethodCall("all")) && inner.entity == old(inner.entity)
          else inner.EndsWithMakeEntity(r, LeftOnFailure(rd, old(inner.entity), old(inner.Applied()))))
      && (r.Success? ==> r.value == Request(rd, old(inner.entity), old(inner.Applied())))
    }

    /**
     * Read-through: a bypassed read is the repository's own and leaves the
     * store alone; a key that cannot be derived raises before anything is
     * touched; a hit returns the stored result and touches nothing else, not
     * even the handle; a miss runs the read and stores its result.
     */
    twostate predicate ReadThrough(rd: Read, env: Env, codec: Codec, new r: Result<Execution, RepositoryError>)
      reads this, inner, inner.app, store
    {
      var tag := old(CurrentTag(env));
      var key := old(CurrentKey(codec, env, rd));
      var found := if key.Some? then Lookup(old(store.entries), tag, key.value) else None;
      if Bypasses(rd, skipCache, env.settings) then
        store.entries == old(store.entries) && Delegated(rd, r)
      else if key.None? then
        && r == Failure(KeyFailure(old(inner.criteria)))
        && store.entries == old(store.entries)
        && inner.entity == old(inner.entity)
        && inner.criteria == old(inner.criteria)
        && inner.skipCriteria == old(inner.skipCriteria)
      else if found.Some? then
        && r == Success(found.value)
        && store.entries == old(store.entries)
        && inner.entity == old(inner.entity)
        && inner.criteria == old(inner.criteria)
        && inner.skipCriteria == old(inner.skipCriteria)
      else
        && Delegated(rd, r)
        && store.entries == if r.Success? then Stored(old(store.entries), tag, key.value, r.value) else old(store.entries)
    }

    /** Run the read on the decorated repository. */
    method Delegate(rd: Read) returns (r: Result<Execution, RepositoryError>)
      modifies inner
      ensures Delegated(rd, r)
    {
      if rd.FindWhereRead? || rd.FindWhereInRead? || rd.FindWhereInFixedRead? || rd.FindWhereNotInRead? {
        r := DelegateFiltered(rd);
      } else {
        r := DelegatePlain(rd);
      }
    }

    /** The reads that hand the repository's handle to the ORM as it is or as the criteria left it. */
    method DelegatePlain(rd: Read) returns (r: Result<Execution, RepositoryError>)
      requires !rd.FindWhereRead? && !rd.FindWhereInRead? && !rd.FindWhereInFixedRead? && !rd.FindWhereNotInRead?
      modifies inner
      ensures Delegated(rd, r)
    {
      match rd
      case AllRead(columns) => r := inner.All(columns);
      case GetRead(columns) => r := inner.Get(columns);
      case FirstRead(columns) => r := inner.First(columns);
      case FirstOrNewRead(where) => r := inner.FirstOrNew(where);
      case PaginateRead(perPage, columns, pageName, page) => r := inner.Paginate(perPage, columns, pageName, page);
      case SimplePaginateRead(perPage, columns, pageName, page) => r := inner.SimplePaginate(perPage, columns, pageName, page);
    }

    /** The reads that add one where clause to the applied handle. */
    method DelegateFiltered(rd: Read) returns (r: Result<Execution, RepositoryError>)
      requires rd.FindWhereRead? || rd.FindWhereInRead? || rd.FindWhereInFixedRead? || rd.FindWhereNotInRead?
      modifies inner
      ensures Delegated(rd, r)
    {
      match rd
      case FindWhereRead(where, columns) => r := inner.FindWhere(where, columns);
      case FindWhereInRead(column, values, columns) => r := inner.FindWhereIn(column, values, columns);
      case FindWhereInFixedRead(column, values, columns) => r := inner.FindWhereInIntended(column, values, columns);
      case FindWhereNotInRead(column, values, columns) => r := inner.FindWhereNotIn(column, values, columns);
    }

    /** `Cache::tags([tag])->remember(key, time, read)`, or the bare read when the cache is bypassed. */
    method Fetch(rd: Read, env: Env, codec: Codec) returns (r: Result<Execution, RepositoryError>)
      modifies inner, store
      ensures ReadThrough(rd, env, codec, r)
    {
      if skipCache || (!rd.AllRead? && !CacheActive(env.settings)) {
        r := Delegate(rd);
        return;
      }
      var key := CurrentKey(codec, env, rd);
      if key.None? {
        return Failure(KeyFailure(inner.criteria));
      }
      var tag := GetTag(env);
      var found := store.Get(tag, key.value);
      if found.Some? {
        return Success(found.value);
      }
      r := RunAndStore(rd, tag, key.value);
    }

    /** A miss: the repository runs the read, and a result is stored under the tag and key. */
    method RunAndStore(rd: Read, tag: string, key: string) returns (r: Result<Execution, RepositoryError>)
      modifies inner, store
      ensures Delegated(rd, r)
      ensures store.entries == if r.Success? then Stored(old(store.entries), tag, key, r.value) else old(store.entries)
    {
      r := Delegate(rd);
      if r.Success? {
        store.Put(tag, key, r.value);
      }
    }

    method All(env: Env, codec: Codec, columns: seq<Column> := DefaultColumns) returns (r: Result<Execution, RepositoryError>)
      modifies inner, store
      ensures ReadThrough(AllRead(columns), env, codec, r)
    {
      r := Fetch(AllRead(columns), env, codec);
    }

    method Get(env: Env, codec: Codec, columns: seq<Column> := DefaultColumns) returns (r: Result<Execution, RepositoryError>)
      modifies inner, store
      ensures ReadThrough(GetRead(columns), env, codec, r)
    {
      r := Fetch(GetRead(columns), env, codec);
    }

    method First(env: Env, codec: Codec, columns: seq<Column> := DefaultColumns) returns (r: Result<Execution, RepositoryError>)
      modifies inner, store
      ensures ReadThrough(FirstRead(columns), env, codec, r)
    {
      r := Fetch(FirstRead(columns), env, codec);
    }

    method FirstOrNew(env: Env, codec: Codec, where: WhereMap) returns (r: Result<Execution, RepositoryError>)
      modifies inner, store
      ensures ReadThrough(FirstOrNewRead(where), env, codec, r)
    {
      r := Fetch(FirstOrNewRead(where), env, codec);
    }

    method FindWhere(env: Env, codec: Codec, where: WhereMap, columns: seq<Column> := DefaultColumns) returns (r: Result<Execution, RepositoryError>)
      modifies inner, store
      ensures ReadThrough(FindWhereRead(where, columns), env, codec, r)
    {
      r := Fetch(FindWhereRead(where, columns), env, codec);
    }

    /**
     * As written: on the bypass path the column list is passed where the
     * repository declares the column name, so every bypassed call fails with
     * a TypeError before the repository is reached.
     */
    method FindWhereIn(env: Env, codec: Codec, column: Column, values: seq<Value>, columns: seq<Column> := DefaultColumns)
      returns (r: Result<Execution, RepositoryError>)
      modifies inner, store
      ensures Bypasses(FindWhereInRead(column, values, columns), skipCache, env.settings) ==>
        && r == Failure(TypeError("column"))
        && store.entries == old(store.entries)
        && inner.entity == old(inner.entity) && inner.criteria == old(inner.criteria) && inner.skipCriteria == old(inner.skipCriteria)
      ensures !Bypasses(FindWhereInRead(column, values, columns), skipCache, env.settings) ==>
        ReadThrough(FindWhereInRead(column, values, columns), env, codec, r)
    {
      if skipCache || !CacheActive(env.settings) {
        var passed := PassAsString("column", StrList(columns));
        return Failure(passed.error);
      }
      r := Fetch(FindWhereInRead(column, values, columns), env, codec);
    }

    /** findWhereIn with the column name forwarded on the bypass path, over the corrected repository read. */
    method FindWhereInIntended(env: Env, codec: Codec, column: Column, values: seq<Value>, columns: seq<Column> := DefaultColumns)
      returns (r: Result<Execution, RepositoryError>)
      modifies inner, store
      ensures ReadThrough(FindWhereInFixedRead(column, values, columns), env, codec, r)
    {
      r := Fetch(FindWhereInFixedRead(column, values, columns), env, codec);
    }

    method FindWhereNotIn(env: Env, codec: Codec, column: Column, values: seq<Value>, columns: seq<Column> := DefaultColumns)
      returns (r: Result<Execution, RepositoryError>)
      modifies inner, store
      ensures ReadThrough(FindWhereNotInRead(column, values, columns), env, codec, r)
    {
      r := Fetch(FindWhereNotInRead(column, values, columns), env, codec);
    }

    method Paginate(env: Env, codec: Codec, perPage: Option<int> := None, columns: seq<Column> := DefaultColumns, pageName: string := "page", page: Option<int> := None)
      returns (r: Result<Execution, RepositoryError>)
      modifies inner, store
      ensures ReadThrough(PaginateRead(perPage, columns, pageName, page), env, codec, r)
    {
      r := Fetch(PaginateRead(perPage, columns, pageName, page), env, codec);
    }

    method SimplePaginate(env: Env, codec: Codec, perPage: Option<int> := None, columns: seq<Column> := DefaultColumns, pageName: string := "page", page: Option<int> := None)
      returns (r: Result<Execution, RepositoryError>)
      modifies inner, store
      ensures ReadThrough(SimplePaginateRead(perPage, columns, pageName, page), env, codec, r)
    {
      r := Fetch(SimplePaginateRead(perPage, columns, pageName, page), env, codec);
    }

    /** Every entry under the current tag is gone, whatever the write then does; other tags keep theirs. */
    twostate predicate FlushedTag(env: Env)
      reads this, store
    {
      store.entries == old(store.entries) - {old(CurrentTag(env))}
    }

    method Create(env: Env, attributes: WhereMap := []) returns (r: Result<Execution, RepositoryError>)
      modifies inner, store
      ensures FlushedTag(env)
      ensures inner.criteria == old(inner.criteria) && inner.skipCriteria == old(inner.skipCriteria)
      ensures !IsModel(old(inner.entity)) ==> r == Failure(BadMethodCall("newInstance")) && inner.entity == old(inner.entity)
      ensures IsModel(old(inner.entity)) ==> inner.EndsWithMakeEntity(r, Then(old(inner.entity), Record("create")))
      ensures r.Success? ==> r.value == Executed(Operation.Create(attributes), old(inner.entity))
    {
      var tag := GetTag(env);
      store.Flush(tag);
      r := inner.Create(attributes);
    }

    method UpdateOrCreate(env: Env, where: WhereMap := [], values: WhereMap := []) returns (r: Result<Execution, RepositoryError>)
      modifies inner, store
      ensures FlushedTag(env)
      ensures inner.criteria == old(inner.criteria) && inner.skipCriteria == old(inner.skipCriteria)
      ensures inner.EndsWithMakeEntity(r, Then(old(inner.entity), Record("updateOrCreate")))
      ensures r.Success? ==> r.value == Executed(Operation.UpdateOrCreate(where, values), old(inner.entity))
    {
      var tag := GetTag(env);
      store.Flush(tag);
      r := inner.UpdateOrCreate(where, values);
    }

    method Update(env: Env, id: int, attributes: WhereMap, found: bool) returns (r: Result<Execution, RepositoryError>)
      modifies inner, store
      ensures FlushedTag(env)
      ensures inner.criteria == old(inner.criteria) && inner.skipCriteria == old(inner.skipCriteria)
      ensures !found ==> r == Failure(ModelNotFound(id)) && inner.entity == FindOrFailLeft(old(inner.entity), id)
      ensures found ==> inner.EndsWithMakeEntity(r, Then(old(inner.entity), Record("update")))
      ensures found && r.Success? ==> r.value == Executed(Operation.Update(id, attributes), old(inner.entity))
    {
      var tag := GetTag(env);
      store.Flush(tag);
      r := inner.Update(id, attributes, found);
    }

    method Delete(env: Env, id: int, found: bool) returns (r: Result<Repository, RepositoryError>)
      modifies inner, store
      ensures FlushedTag(env)
      ensures inner.criteria == old(inner.criteria) && inner.skipCriteria == old(inner.skipCriteria)
      ensures !found ==> r == Failure(ModelNotFound(id)) && inner.entity == FindOrFailLeft(old(inner.entity), id)
      ensures found ==> inner.EndsWithMakeEntity(r, Then(old(inner.entity), Record("delete")))
      ensures r.Success? ==> r.value == inner
    {
      var tag := GetTag(env);
      store.Flush(tag);
      r := inner.Delete(id, found);
    }
  }
}
