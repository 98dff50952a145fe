# laravel-repository, modelled in Dafny

This project models the core of the `pacerit/laravel-repository` package.
That package puts a repository layer over Eloquent models.

- **Repository (`CoreRepository`).** A repository object keeps three fields:
  - an ordered stack of criteria;
  - a `skipCriteria` flag;
  - the current query handle, called the *entity*.

  Criteria can be pushed, popped by class name and cleared. `applyCriteria` folds every criterion that extends the base criterion class over the handle, in the order the criteria were pushed. Builder modifiers (`orderBy`, `with`, `withTrashed`, `has`, `whereHas`, …) replace the handle with an extended one. Every terminal operation ends by making a fresh handle. The criteria stack survives terminal operations.
- **Criteria.** Each criterion is a value object whose `apply` extends a handle. The criterion classes are: date range, where-map, or-where map, where-in, where-not-in, grouped where/or-where, limit, offset, and the select-and-like search with a limit.
- **Cache decorator (`WithCache`).** Reads go through a tagged cache; writes first flush the tag.
  - The tag is the repository's class basename, `_`, then the id of the first configured guard that is authenticated, or `0`.
  - The key is `method@class_tag-md5(serialized arguments + serialized criteria)`.
  - The `skipCache` and `skipUserTag` flags are per repository. Configuration falls back to defaults.
- **Entity exception (`RepositoryEntityException`).** It has a `strtr` message template, code 500, and passes the previous throwable through.

How the program is modelled:

- **Query handle.** A handle is a value `Query(base, steps)`. It holds the model class plus the builder steps in order: where clauses, select, limit, offset, modifiers, and a record of a write. The views `Wheres`, `LimitOf`, `OffsetOf` and `ColumnsOf` give the clauses recorded and the last limit, offset and select recorded. They do not say what the ORM makes of them.
- **Criteria stack.** The stack is a sequence of `Item(key, criterion)` entries, as in the Collection. A push takes one more than the largest key in use. A pop keeps the survivors' keys. The cache key serialises the keys along with the criteria.
- **Terminal operations.** A terminal operation returns `Executed(operation, query)`. This is the request it hands to the ORM, not a result.
- **Repository and cache.** `Repository` is a class whose methods update `entity`, `criteria` and `skipCriteria` in place. `CachedRepository` wraps a `Repository` together with a `CacheStore`, which is a class holding a tag → (key → value) map.
- **Inputs.** The container's known model classes, the configuration, the authenticated guards and the hash/serialise functions are inputs.

Files:

- `query.dfy` holds the handle.
- `criteria.dfy` holds the criterion classes.
- `criteria_stack.dfy` holds the fold and the pop filter.
- `repository.dfy` holds the repository class.
- `cache_key.dfy` holds tag and key derivation.
- `cached_repository.dfy` holds the store and the cache decorator.
- `entity_exception.dfy` holds the exception.
- `scenarios.dfy` holds call sequences and what a client observes after them.

## Model

| member | source | states |
|---|---|---|
| Repositories.Repository.constructor | src/Repositories/CoreRepository.php:63-68 | a new repository has no criteria, does not skip them, and holds a fresh handle for its model class |
| Repositories.Repository.New | src/Repositories/CoreRepository.php:63-68 | construction succeeds exactly when the container can make the entity class; otherwise it fails with the entity exception for that class |
| Repositories.Repository.MakeEntity | src/Repositories/CoreRepository.php:82-95 | succeeds iff the class resolves to a model; on success the handle is fresh; on failure the handle is unchanged and the error carries the class name; criteria and flag are never touched |
| Repositories.Repository.GetEntity | src/Repositories/CoreRepository.php:106-109 | returns the current handle |
| Repositories.Repository.SetEntity | src/Repositories/CoreRepository.php:122-127 | replaces the handle and nothing else |
| Repositories.Repository.PushCriteria | src/Repositories/CoreRepository.php:140-145 | appends exactly the given criterion at the end, under one more than the largest key in use (0 when empty); handle and flag unchanged |
| Repositories.Repository.PopCriteria | src/Repositories/CoreRepository.php:161-170 | the stack becomes the old stack without the criteria of that class, the others in order and under their old keys; then the handle is reset as by makeEntity |
| Repositories.Repository.GetCriteria | src/Repositories/CoreRepository.php:181-184 | returns the stack as it is |
| Repositories.Repository.ApplyCriteria | src/Repositories/CoreRepository.php:195-213 | the handle becomes the left fold of apply over the stack, skipping classes that do not extend the base criterion; with the flag set the handle is unchanged; stack and flag are preserved |
| Repositories.Repository.SkipCriteria | src/Repositories/CoreRepository.php:226-231 | sets the flag to the argument and changes nothing else |
| Repositories.Repository.ClearCriteria | src/Repositories/CoreRepository.php:245-251 | empties the stack and resets the handle as by makeEntity |
| Repositories.Repository.All | src/Repositories/CoreRepository.php:268-275 | on a model handle, runs `all` as the handle is, without applying criteria, and ends with a fresh handle; on a builder handle, which has no `all`, fails with a bad-method-call error and leaves the handle |
| Repositories.Repository.Get | src/Repositories/CoreRepository.php:291-300 | runs `get` on the criteria-applied handle, ends with a fresh handle, keeps the stack |
| Repositories.Repository.First | src/Repositories/CoreRepository.php:316-325 | as Get, for `first` |
| Repositories.Repository.Create | src/Repositories/CoreRepository.php:341-351 | on a model handle, creates without criteria and ends with a fresh handle; on a builder handle, which has no `newInstance`, fails before anything is assigned and leaves the handle |
| Repositories.Repository.UpdateOrCreate | src/Repositories/CoreRepository.php:368-377 | runs `updateOrCreate` on the handle as it is, model or builder, without criteria; ends with a fresh handle, or leaves the handle plus the write's record when makeEntity fails |
| Repositories.FindOrFailLeft | src/Repositories/CoreRepository.php:394-397 | what a failed `findOrFail($id)` leaves: a model handle unchanged; a builder handle extended by the key where clause and the limit 1, the earlier wheres kept in front |
| Repositories.Repository.Update | src/Repositories/CoreRepository.php:394-405 | a missing id fails with model-not-found and leaves the handle as findOrFail left it (`FindOrFailLeft`); otherwise updates without criteria and ends with a fresh handle |
| Repositories.Repository.Delete | src/Repositories/CoreRepository.php:420-428 | a missing id fails as in Update; otherwise deletes, ends with a fresh handle and answers the repository itself, not a record of the deletion |
| Repositories.FirstOrNewLeft | src/Repositories/CoreRepository.php:444-446 | what `firstOrNew($attributes)` leaves on the handle: a model handle unchanged; a builder handle extended by the AND where-map and the limit 1, the earlier wheres kept in front |
| Repositories.Repository.FirstOrNew | src/Repositories/CoreRepository.php:444-451 | runs `firstOrNew` on the handle without criteria; ends with a fresh handle, or, when makeEntity fails, leaves the handle as the lookup left it (`FirstOrNewLeft`) |
| Repositories.Repository.Modify | src/Repositories/CoreRepository.php:755-1117 | withTrashed, onlyTrashed, the relation-existence family and withCount, like orderBy and with at lines 465-488, append their own step to the handle; stack and flag unchanged |
| Repositories.Repository.FindWhere | src/Repositories/CoreRepository.php:553-562 | adds one AND where-map clause after the criteria and runs `get` with the given columns; if makeEntity then fails, a builder handle keeps the where call made on it |
| Repositories.Repository.FindWhereIn | src/Repositories/CoreRepository.php:580-589 | as written: adds the where-in clause but runs `get` with the default columns, whatever columns were passed; a failing makeEntity leaves the where-in on a builder handle |
| Repositories.Repository.FindWhereInIntended | src/Repositories/CoreRepository.php:580-589 | corrected: runs `get` with the columns passed |
| Repositories.FindWhereInRequest | src/Repositories/CoreRepository.php:580-589 | the as-written request: default columns, where clauses of the applied handle plus one where-in |
| Repositories.FindWhereInRequestIntended | src/Repositories/CoreRepository.php:580-589 | the corrected request: the columns passed, same where clauses |
| Repositories.FindWhereInDropsColumns | src/Repositories/CoreRepository.php:584 | for any non-default column list, the as-written request differs from the corrected one and does not select the columns asked for |
| Repositories.Repository.FindWhereNotIn | src/Repositories/CoreRepository.php:607-616 | adds one where-not-in clause after the criteria and runs `get` with the given columns; a failing makeEntity leaves the clause on a builder handle |
| Repositories.Repository.Chunk | src/Repositories/CoreRepository.php:634-643 | selects the columns on the applied handle and chunks it; a failing makeEntity leaves the select on a builder handle |
| Repositories.Repository.Count | src/Repositories/CoreRepository.php:659-668 | counts on the applied handle; fresh handle afterwards |
| Repositories.Repository.Sum | src/Repositories/CoreRepository.php:679-688 | sums the column on the applied handle; fresh handle afterwards |
| Repositories.Repository.Paginate | src/Repositories/CoreRepository.php:707-716 | paginates the applied handle with the arguments as given |
| Repositories.Repository.SimplePaginate | src/Repositories/CoreRepository.php:735-744 | as Paginate, for simple pagination |
| CriteriaStack.ApplyOne | src/Repositories/CoreRepository.php:201-210 | one loop step: a criterion of a foreign class leaves the handle as it is; any criterion only extends it |
| CriteriaStack.ApplyAll | src/Repositories/CoreRepository.php:201-210 | the fold over the stack only extends the handle |
| CriteriaStack.ApplyAllCons | src/Repositories/CoreRepository.php:201-210 | the first criterion is applied first |
| CriteriaStack.ApplyAllAppend | src/Repositories/CoreRepository.php:140-145 | applying a longer stack is applying the old one, then the pushed tail |
| CriteriaStack.ApplyAllSkipsForeign | src/Repositories/CoreRepository.php:203-207 | the fold equals the fold over only the criteria that extend the base class |
| CriteriaStack.ApplyAllKeepsWheres | src/Repositories/CoreRepository.php:201-210 | the where clauses already on the handle are a prefix of those after the fold |
| CriteriaStack.ApplyAllAddsNoModifiers | src/Repositories/CoreRepository.php:201-210 | every modifier after the fold was on the handle before or is a call an application criterion of the stack makes; with only criteria that make no modifier call, every modifier was on the handle before |
| CriteriaStack.Reject | src/Repositories/CoreRepository.php:163-167 | the filtered stack holds only criteria of the stack, none of the popped class |
| CriteriaStack.RejectAppend | src/Repositories/CoreRepository.php:163-167 | filtering distributes over concatenation, so relative order is kept |
| CriteriaStack.RejectKeepsOthers | src/Repositories/CoreRepository.php:163-167 | every criterion of another class keeps its number of occurrences |
| CriteriaStack.RejectAbsent | src/Repositories/CoreRepository.php:163-167 | popping a class not on the stack leaves the stack unchanged |
| CriteriaStack.RejectIdempotent | src/Repositories/CoreRepository.php:161-170 | popping the same class twice is popping it once |
| CriteriaStack.Values | src/Repositories/CoreRepository.php:201-210 | the criteria of the Collection in its order, one per entry |
| CriteriaStack.NextKey | src/Repositories/CoreRepository.php:142 | the key a push uses is above every key in use and is one past one of them, or 0 for an empty Collection |
| CriteriaStack.RejectItems | src/Repositories/CoreRepository.php:163-167 | the entries kept are entries of the Collection, none of the popped class, under their own keys |
| CriteriaStack.RejectItemsValues | src/Repositories/CoreRepository.php:163-167 | the criteria of the kept entries are exactly Reject of the Collection's criteria |
| Criteria.Apply | src/Repositories/Criteria/Interfaces/CoreRepositoryCriteriaInterface.php:17-28 | the `apply` every criterion class implements (DateCriteria.php:66-77, FindWhereCriteria.php:43-46, FindWhereInCriteria.php:50-53, FindWhereNotInCriteria.php:50-53, FindWhereOrWhereCriteria.php:50-59, LimitCriteria.php:43-46, OffsetCriteria.php:43-46, OrWhereCriteria.php:43-46, Select2Criteria.php:76-81) only appends steps to the handle; an application criterion appends the calls it makes |
| Criteria.LikePattern | src/Repositories/Criteria/Select2Criteria.php:79 | the pattern is `%`, the phrase verbatim, `%` |
| Criteria.OrGroup | src/Repositories/Criteria/FindWhereOrWhereCriteria.php:52-57 | the group holds the where-map first, then one OR clause per or-where map in list order; its size is one more than the list |
| Criteria.BuildOrGroup | src/Repositories/Criteria/FindWhereOrWhereCriteria.php:52-57 | the loop builds exactly OrGroup |
| Criteria.DateCriteriaApply | src/Repositories/Criteria/DateCriteria.php:66-77 | adds `column >= from` when from is given, then `column <= to` when to is given, both AND; nothing with both absent; paging untouched |
| Criteria.DateCriteriaAddsWheres | src/Repositories/Criteria/DateCriteria.php:66-77 | every step DateCriteria adds is a where clause |
| Criteria.DateCriteriaDefaultColumn | src/Repositories/Criteria/DateCriteria.php:45-53 | the column defaults to `created_at` |
| Criteria.FindWhereCriteriaApply | src/Repositories/Criteria/FindWhereCriteria.php:43-46 | adds exactly one AND where-map clause carrying the map, after the existing ones; no limit, offset or select |
| Criteria.OrWhereCriteriaApply | src/Repositories/Criteria/OrWhereCriteria.php:43-46 | adds exactly one OR where-map clause; no limit, offset or select |
| Criteria.FindWhereInCriteriaApply | src/Repositories/Criteria/FindWhereInCriteria.php:50-53 | adds exactly one where-in clause with the column and values in order; nothing else |
| Criteria.FindWhereNotInCriteriaApply | src/Repositories/Criteria/FindWhereNotInCriteria.php:50-53 | adds exactly one where-not-in clause with the column and list; nothing else |
| Criteria.FindWhereOrWhereCriteriaApply | src/Repositories/Criteria/FindWhereOrWhereCriteria.php:50-58 | adds exactly one AND nested group: the where-map, then one OR per or-where map |
| Criteria.FindWhereOrWhereCriteriaDefault | src/Repositories/Criteria/FindWhereOrWhereCriteria.php:33 | with the default empty or-where list the group holds only the where-map |
| Criteria.LimitCriteriaApply | src/Repositories/Criteria/LimitCriteria.php:43-46 | the limit becomes the stored value; the where clauses are unchanged |
| Criteria.OffsetCriteriaApply | src/Repositories/Criteria/OffsetCriteria.php:43-46 | the offset becomes the stored value; the where clauses are unchanged |
| Criteria.Select2CriteriaApply | src/Repositories/Criteria/Select2Criteria.php:76-81 | appends select, then one like clause with the unescaped phrase, then the limit; the existing clauses are kept |
| Criteria.Select2CriteriaDefaultLimit | src/Repositories/Criteria/Select2Criteria.php:57 | the limit defaults to 5 |
| Criteria.ApplyAddsNoModifiers | src/Repositories/Criteria/Interfaces/CoreRepositoryCriteriaInterface.php:17-28 | over every class's `apply` (the nine methods listed for Criteria.Apply): no step a criterion of the package adds is a builder modifier; a modifier an application criterion adds is one of its own calls |
| EntityException.EntityMessage | src/Repositories/Exceptions/RepositoryEntityException.php:19 | the message is the template's text before the placeholder, the class name, and the text after it |
| EntityException.Strtr | src/Repositories/Exceptions/RepositoryEntityException.php:36-41 | a replacement as long as the key keeps the length, a longer one never shortens the text, and a text starting with the key starts with the replacement |
| EntityException.StrtrNoKey | src/Repositories/Exceptions/RepositoryEntityException.php:36-41 | a text without the placeholder is left as it is |
| EntityException.StrtrPrefix | src/Repositories/Exceptions/RepositoryEntityException.php:36-41 | substitution passes over a prefix that cannot start the placeholder |
| EntityException.StrtrOnce | src/Repositories/Exceptions/RepositoryEntityException.php:36-41 | a single placeholder is replaced once, and the replacement is not scanned again |
| EntityException.TemplateSubstitution | src/Repositories/Exceptions/RepositoryEntityException.php:19-41 | substituting into the template gives the text before, the name, and the text after |
| EntityException.NewRepositoryEntityException | src/Repositories/Exceptions/RepositoryEntityException.php:24-46 | the message is exactly `Given class (ns) must be instance of Model class!`, the code is 500, and the previous throwable is passed through |
| EntityException.EntityMessageNotRescanned | src/Repositories/Exceptions/RepositoryEntityException.php:36-41 | a class name that itself contains the placeholder appears verbatim in the message |
| CacheKeys.CacheActive | src/Repositories/Traits/WithCache.php:513-516 | caching is active iff the setting is present and true; it defaults to inactive |
| CacheKeys.CacheTime | src/Repositories/Traits/WithCache.php:527-530 | the cache time is the setting, or 3600 by default |
| CacheKeys.CacheGuards | src/Repositories/Traits/WithCache.php:541-544 | the guards are the setting, or none by default |
| CacheKeys.BasenameIsLastSegment | src/Repositories/Traits/WithCache.php:489-502 | the basename is the suffix after the last backslash of the class name |
| CacheKeys.FirstAuthenticated | src/Repositories/Traits/WithCache.php:495-500 | the position of the first authenticated guard in configured order, or the number of guards if none is |
| CacheKeys.FirstAuthenticatedIs | src/Repositories/Traits/WithCache.php:495-500 | that position is the only one with those properties |
| CacheKeys.UserSegment | src/Repositories/Traits/WithCache.php:491-501 | `0` when the user tag is skipped or no guard is authenticated |
| CacheKeys.UserSegmentFirstGuard | src/Repositories/Traits/WithCache.php:495-499 | otherwise the id of the first authenticated guard, in configured order |
| CacheKeys.TagSeparatesUsers | src/Repositories/Traits/WithCache.php:489-502 | two users with different ids get different tags for the same repository |
| CacheKeys.StrList | src/Repositories/Traits/WithCache.php:78-93 | a list argument is serialised element by element: one entry per element, entry i the string xs[i] |
| CacheKeys.Reflected | src/Repositories/Traits/WithCache.php:109-126 | the reflected properties and parameters hold one entry per declared property; a property names itself and, as its second entry, the criterion's class; a parameter names only itself |
| CacheKeys.FirstUnhashable | src/Repositories/Traits/WithCache.php:116-120 | the first criterion in Collection order that neither serialises nor has a string form, whose `(string)` cast throws an Error the catch does not take; none exactly when every criterion can be hashed |
| CacheKeys.Fingerprint | src/Repositories/Traits/WithCache.php:108-127 | for a criterion that can be hashed, the entry holds the serialised criterion, or the md5 of its string form when serialisation throws, and its class name |
| CacheKeys.Fingerprints | src/Repositories/Traits/WithCache.php:104-131 | one entry per criterion, in stack order, under the criterion's own Collection key |
| CacheKeys.FingerprintsPush | src/Repositories/Traits/WithCache.php:104-131 | pushing a criterion appends its keyed entry |
| CacheKeys.CollectionRecordsKeys | src/Repositories/Traits/WithCache.php:106-107 | two stacks serialised from the same Collection value have the same keys and the same fingerprints, position by position |
| CacheKeys.SerializedCriteria | src/Repositories/Traits/WithCache.php:104-131 | fails exactly when some criterion can be neither serialised nor cast to a string, or reflection objects are refused and some criterion has a property; an empty stack always serialises |
| CacheKeys.PackageCriterionBreaksSerialization | src/Repositories/Traits/WithCache.php:122-127 | where reflection objects are refused, any stack holding a criterion of the package cannot be serialised |
| CacheKeys.CacheKeyShape | src/Repositories/Traits/WithCache.php:86-92 | the key starts with the method name and an `@`, ends with the 32-character digest, and is 35 characters longer than method, class and tag together |
| CacheKeys.ReadKeyShape | src/Repositories/Traits/WithCache.php:78-93 | no key exists exactly when the criteria cannot be serialised; a derived key starts with the method and `@` and ends with the md5 of the serialised arguments followed by the serialised criteria |
| CacheKeys.AtEndsMethod | src/Repositories/Traits/WithCache.php:86-92 | the first `@` of a key ends its method name |
| CacheKeys.CacheKeyInjective | src/Repositories/Traits/WithCache.php:78-93 | for one class, equal keys mean equal method, tag and digest |
| CachedRepositories.Lookup | src/Repositories/Traits/WithCache.php:183-189 | an entry is found iff the tag holds the key |
| CachedRepositories.LookupStored | src/Repositories/Traits/WithCache.php:183-189 | after storing, that key under that tag gives the value and every other lookup is unchanged |
| CachedRepositories.LookupFlushed | src/Repositories/Traits/WithCache.php:355 | after a flush, nothing is found under that tag and other tags are unchanged |
| CachedRepositories.CacheStore.constructor | src/Repositories/Traits/WithCache.php:183-189 | a new store is empty |
| CachedRepositories.CacheStore.Get | src/Repositories/Traits/WithCache.php:185-188 | returns the lookup of the tag and key |
| CachedRepositories.CacheStore.Put | src/Repositories/Traits/WithCache.php:185-188 | stores the value under the tag and key, nothing else |
| CachedRepositories.CacheStore.Flush | src/Repositories/Traits/WithCache.php:355 | removes every entry under the tag, nothing else |
| CachedRepositories.Request | src/Repositories/Traits/WithCache.php:145-340 | what each delegated read asks of the repository: `all`/`firstOrNew` on the handle as is, the others on the criteria-applied handle; `findWhereIn` as the repository writes it, its corrected variant separately |
| CachedRepositories.Bypasses | src/Repositories/Traits/WithCache.php:176-178 | `all` skips the store exactly when skipCache is set; every other read also when caching is not configured on |
| CachedRepositories.AllIgnoresActiveFlag | src/Repositories/Traits/WithCache.php:147-149 | with caching inactive, `all` still uses the cache while every other read bypasses it |
| CachedRepositories.DefaultsBypass | src/Repositories/Traits/WithCache.php:513-544 | with no configuration every read except `all` bypasses the cache; the time is 3600 and there are no guards |
| CachedRepositories.PassAsString | src/Repositories/Traits/WithCache.php:296 | a string argument is passed through; an array for a `string` parameter is a type error |
| CachedRepositories.CachedRepository.constructor | src/Repositories/Traits/WithCache.php:25-32 | both flags start unset |
| CachedRepositories.CachedRepository.SkipCache | src/Repositories/Traits/WithCache.php:43-48 | sets skipCache and nothing else |
| CachedRepositories.CachedRepository.SkipUserTag | src/Repositories/Traits/WithCache.php:59-64 | sets skipUserTag and nothing else |
| CachedRepositories.CachedRepository.CurrentTagShape | src/Repositories/Traits/WithCache.php:489-502 | the tag starts with the basename and `_`; it is `basename_0` when the user tag is skipped or no configured guard is authenticated |
| CachedRepositories.CachedRepository.GetTag | src/Repositories/Traits/WithCache.php:489-502 | the loop computes the tag; with skipUserTag it is `basename_0` |
| CachedRepositories.CachedRepository.Delegate | src/Repositories/Traits/WithCache.php:145-340 | the parent call each read stands for; the as-written `findWhereIn` read goes to the as-written repository method |
| CachedRepositories.KeyFailure | src/Repositories/Traits/WithCache.php:104-131 | a criterion without a string form that does not serialise raises its cast Error first, during `map`; otherwise the failure is `serialize` refusing the reflection objects |
| CachedRepositories.CachedRepository.Fetch | src/Repositories/Traits/WithCache.php:174-190 | bypass delegates with the store unchanged; a key that cannot be derived fails with `KeyFailure`'s error and touches nothing; a hit returns the stored value and leaves the repository alone; a miss delegates once and stores the result under the tag and key |
| CachedRepositories.CachedRepository.All | src/Repositories/Traits/WithCache.php:145-161 | read-through for `all`, which bypasses only on skipCache; run on a builder handle it fails with the bad-method-call error and stores nothing |
| CachedRepositories.CachedRepository.Get | src/Repositories/Traits/WithCache.php:174-190 | read-through for `get` |
| CachedRepositories.CachedRepository.First | src/Repositories/Traits/WithCache.php:203-219 | read-through for `first` |
| CachedRepositories.CachedRepository.FirstOrNew | src/Repositories/Traits/WithCache.php:232-248 | read-through for `firstOrNew`; a failing makeEntity leaves the lookup's where-map and limit on a builder handle |
| CachedRepositories.CachedRepository.FindWhere | src/Repositories/Traits/WithCache.php:262-278 | read-through for `findWhere` |
| CachedRepositories.CachedRepository.FindWhereIn | src/Repositories/Traits/WithCache.php:293-309 | as written: on the bypass path the call fails with a type error on `column` and touches neither repository nor store; on the cached path it is read-through |
| CachedRepositories.CachedRepository.FindWhereInIntended | src/Repositories/Traits/WithCache.php:293-309 | corrected: read-through on both paths, forwarding the column, over the corrected repository read |
| CachedRepositories.CachedRepository.FindWhereNotIn | src/Repositories/Traits/WithCache.php:324-340 | read-through for `findWhereNotIn` |
| CachedRepositories.CachedRepository.Paginate | src/Repositories/Traits/WithCache.php:430-446 | read-through for `paginate` |
| CachedRepositories.CachedRepository.SimplePaginate | src/Repositories/Traits/WithCache.php:462-478 | read-through for `simplePaginate` |
| CachedRepositories.CachedRepository.Create | src/Repositories/Traits/WithCache.php:353-358 | empties the current tag, keeps every other tag, then creates as the repository does, failing on a builder handle |
| CachedRepositories.CachedRepository.UpdateOrCreate | src/Repositories/Traits/WithCache.php:372-377 | flush of the current tag, then `updateOrCreate` |
| CachedRepositories.CachedRepository.Update | src/Repositories/Traits/WithCache.php:391-396 | flush of the current tag, then `update`, with findOrFail's leftovers on a missing id |
| CachedRepositories.CachedRepository.Delete | src/Repositories/Traits/WithCache.php:409-414 | flush of the current tag, then `delete`, answering the repository itself |
| Scenarios.ClearThenGet | src/Repositories/CoreRepository.php:245-300 | after clearCriteria a get runs on a fresh handle with nothing applied |
| Scenarios.SkipCriteriaThenGet | src/Repositories/CoreRepository.php:195-231 | with criteria skipped a get runs on the handle as it was and the stack is kept |
| Scenarios.PushThenGet | src/Repositories/CoreRepository.php:140-145 | a pushed criterion is applied after all earlier ones and sits under the next key |
| Scenarios.PopAfterTwoPushes | src/Repositories/CoreRepository.php:140-170 | two pushes take keys 0 and 1; popping the first class leaves the second under key 1 |
| Scenarios.KeyGapSerializesApart | src/Repositories/Traits/WithCache.php:104-131 | a criterion that can be hashed, under key 1 and under key 0, is serialised from different Collection values |
| Scenarios.PopLeavesKeyGap | src/Repositories/CoreRepository.php:140-170 | after two pushes and a pop, the stack differs in its key from the same criterion pushed afresh, and, when the criterion can be hashed, the cache serialises the two apart |
| Scenarios.PopThenGet | src/Repositories/CoreRepository.php:161-170 | after popCriteria a get applies exactly the other classes' criteria, in order, to a fresh handle |
| Scenarios.GetTwice | src/Repositories/CoreRepository.php:291-300 | criteria survive a terminal operation and apply again to the fresh handle |
| Scenarios.RepeatedReadHits | src/Repositories/Traits/WithCache.php:174-190 | the same cached read twice: the second answers from the store with the first result; when the criteria cannot be serialised both fail alike, with `KeyFailure`'s error |
| Scenarios.WriteThenRead | src/Repositories/Traits/WithCache.php:353-358 | the write succeeds exactly on a model handle; the next cached read is a miss and runs on the fresh handle, or on the builder handle a failed write left, unless the criteria cannot be serialised |
| Scenarios.ModifierFromApplication | src/Repositories/CoreRepository.php:201-210 | a modifier that appears on the applied handle and was not on it before is a call of some application criterion on the stack |
| Scenarios.ModifierNotInKey | src/Repositories/Traits/WithCache.php:78-93 | the key ignores the handle, so after a builder modifier the cached read returns the entry stored without it; the modifier shows in that entry only if an application criterion on the stack makes the same call |

## Left out

- Query execution and its results belong to the ORM and are not modelled: SQL semantics, soft-delete scoping, pagination and chunk callbacks. Terminal operations return the request `Executed(operation, query)` instead.
- The transaction methods `beginTransaction`, `commit` and `rollBack` (src/Repositories/CoreRepository.php:499-536) are left out. They only pass through to the database facade.
- Each builder modifier is recorded as one named step carrying its arguments. The `has`/`whereHas` closures and the `chunk` callback are user code and appear only by name.
- A write leaves the handle as the old handle plus a record of the write, for the rare case where `makeEntity` fails afterwards. The ORM would instead leave the model instance it returned.
- `Repositories.Repository.Update` and `Repositories.Repository.Delete`: whether `findOrFail` finds the id is a `found` input, not a lookup in a table. What the lookup leaves on a builder handle is modelled (`Repositories.FindOrFailLeft`).
- Resolving the model class through the container is reduced to membership in a set of known model classes. A `BindingResolutionException` for an unknown binding is not modelled.
- A handle counts as a model instance while it is fresh or holds the record of a write (`QueryBuilder.IsModel`), and as a builder once a builder call is recorded on it. `Repositories.Repository.All` and `Repositories.Repository.Create` fail with `BadMethodCall` on a builder, as the ORM's builder has neither `all` nor `newInstance`. Other model-only or builder-only methods are not told apart.
- `Repositories.Repository.GetEntity` and `Repositories.Repository.GetCriteria` return values. In the source they return the builder object and the Collection object themselves, so a caller that mutates them changes the repository's state. That aliasing is not modelled.
- `Repositories.Repository.First`, `Repositories.Repository.Paginate`, `Repositories.Repository.SimplePaginate`, `Repositories.Repository.Chunk`, `CachedRepositories.CachedRepository.First`, `CachedRepositories.CachedRepository.Paginate` and `CachedRepositories.CachedRepository.SimplePaginate`: one rule decides which in-place builder changes are recorded. Recorded are the calls the repository makes itself (`where`, `whereIn`, `whereNotIn`, `select`, through `QueryBuilder.CalledOn`) and the lookups of `findOrFail` and `firstOrNew` (`Repositories.FindOrFailLeft`, `Repositories.FirstOrNewLeft`). Not recorded are the changes the ORM makes inside the terminal operation the repository hands the handle to: `take(1)` in `first`, `forPage` in `paginate` and `simplePaginate`, and the limit and offset of `chunk`. These are the members that terminal operation affects, and the changes matter only when `makeEntity` fails afterwards and the handle is left behind.
- `QueryBuilder.LimitOf` and `QueryBuilder.OffsetOf` return the last limit and offset recorded. The ORM ignores a negative limit and stores a negative offset as 0. `orWhere` with an array puts its pairs in a nested group. These ORM rules are not modelled.
- `Criteria.Apply`: an application's criterion is modelled as appending a fixed list of builder calls to the handle it gets. An `apply` that returns an unrelated handle, or whose calls depend on the handle, is not modelled.
- `Scenarios.ModifierNotInKey` and `CriteriaStack.ApplyAllAddsNoModifiers` do not claim that a modifier never reaches the stored entry. They show that it does so only through an application criterion that makes the same call.
- `CacheKeys.Codec`: whether `serialize` refuses reflection objects is an input, `reflectionSerializes`. On PHP versions that refuse them, every key over a stack holding a criterion with a property fails. The model returns a `NotSerializable("ReflectionProperty")` error without touching the store or the repository. Which PHP version refuses them is not modelled. A criterion that does not serialise and has no `__toString` (its `text` is `None`) makes the cached read fail with `NotStringable` in the same way.
- The cache's TTL and expiry are not modelled. Neither is the tag storage backend. `CacheTime` is modelled, but no entry expires.
- The `(int)` cast of the configured time is not modelled; the time is an integer input.
- `CachedRepositories.CachedRepository.First`: `first()` answers `null` when no row matches, and `remember` never stores `null`, so such a read is run again every time. Here every delegated result is a request value, so the model stores it and the next identical read hits. The same holds for any other read whose ORM answer is `null`.
- The key's arguments are every parameter of the call, defaults included. PHP's `func_get_args()` records only the arguments actually passed, so two calls that differ only in spelling out a default get one key here and two keys in the source.
- `md5`, `serialize` and `ReflectionObject` are abstract. They enter as a `Codec` value and a per-criterion list of declared properties. A `UserDefined` criterion's properties, and its constructor's parameters, are taken to be its fields.
- `auth($guard)` on a guard that is not defined throws in the framework. Here the guards are a map of authenticated ids.
- `WithCache` is a trait mixed into a repository subclass, with `parent::` calls. It is modelled as a decorator class holding a `Repository`. The as-written cached `findWhereIn` delegates to the as-written repository method. The corrected one delegates to the corrected method (see Findings).
- `WithDatatable` and the service provider are framework glue and are not part of this model.

## Findings

| source | as written | input that shows it | evidently intended | confidence | as-written member | corrected member |
|---|---|---|---|---|---|---|
| src/Repositories/Traits/WithCache.php:296 | on the bypass path `findWhereIn` passes the `$columns` array as the `string $column` argument of the parent | `findWhereIn('id', ['1'])` with caching inactive or after `skipCache()` | pass `$column`, `$values`, `$columns`, as the cached path does at line 306 | not executed | CachedRepositories.CachedRepository.FindWhereIn | CachedRepositories.CachedRepository.FindWhereInIntended |
| src/Repositories/CoreRepository.php:584 | `findWhereIn` calls `get()` without its `$columns` argument, so it always selects `*` | `findWhereIn('id', ['1'], ['id'])` | `get($columns)`, as `findWhere` and `findWhereNotIn` do | not executed | Repositories.FindWhereInDropsColumns | Repositories.Repository.FindWhereInIntended |
