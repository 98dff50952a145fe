/**
 * What the cache decorator derives from its inputs: the configuration with
 * its defaults, the tag (the repository's short class name and the id of the
 * first authenticated user), the fingerprint of the pushed criteria, and the
 * key `{method}@{class}_{tag}-{digest}`.
 *
 * PHP's `serialize` and `md5` are not modelled: they are the two functions
 * of a `Codec`, about which nothing is known except that a digest has 32
 * characters, and whether it accepts reflection objects (recent PHP
 * versions refuse them, and the exception then escapes the key derivation).
 * Reflection is replaced by each criterion's declared properties, which for
 * every criterion class of the package are also its constructor's
 * parameters.
 */
module CacheKeys {
  import opened Wrappers
  import opened QueryBuilder
  import opened Criteria
  import opened CriteriaStack

  /** The PHP values that reach `serialize`. */
  datatype PhpValue =
    | Null
    | Bool(b: bool)
    | Int(i: int)
    | Str(s: string)
    | List(items: seq<PhpValue>)
    | Assoc(entries: seq<(string, PhpValue)>)
      /** an array with integer keys, such as a Collection's items after a filter */
    | Keyed(pairs: seq<(int, PhpValue)>)
    | Object(className: string, properties: seq<(string, PhpValue)>)

  /** An md5 digest, printed as 32 hexadecimal characters. */
  type Digest = s: string | |s| == 32 witness "00000000000000000000000000000000"

  /** `serialize` and `md5`, and whether `serialize` accepts ReflectionProperty and ReflectionParameter objects. */
  datatype Codec = Codec(serialize: PhpValue -> string, md5: string -> Digest, reflectionSerializes: bool)

  // ---------------------------------------------------------------- configuration

  /** The three configuration entries, `None` where the application sets nothing. */
  datatype Settings = Settings(active: Option<bool>, time: Option<int>, guards: Option<seq<string>>)

  /** The request-scoped inputs: the configuration, and the id each authenticated guard reports. */
  datatype Env = Env(settings: Settings, authenticated: map<string, string>)

  const DefaultTime := 3600

  /** Caching is off unless configured on. */
  function CacheActive(s: Settings): (r: bool)
    ensures r <==> s.active == Some(true)
  {
    s.active.GetOr(false)
  }

  /** Seconds an entry lives; one hour unless configured. */
  function CacheTime(s: Settings): (t: int)
    ensures s.time.None? ==> t == DefaultTime
    ensures s.time.Some? ==> t == s.time.value
  {
    s.time.GetOr(DefaultTime)
  }

  /** The guards asked, in order, for an authenticated user; none unless configured. */
  function CacheGuards(s: Settings): (g: seq<string>)
    ensures s.guards.None? ==> g == []
    ensures s.guards.Some? ==> g == s.guards.value
  {
    s.guards.GetOr([])
  }

  // ---------------------------------------------------------------- tag

  /** `class_basename`: what follows the last backslash of a class name, or the whole name. */
  function Basename(name: string): string {
    if name == [] then []
    else if name[|name| - 1] == '\\' then []
    else Basename(name[..|name| - 1]) + [name[|name| - 1]]
  }

  /** The basename is the name's last segment: a backslash-free suffix, preceded by a backslash unless it is the whole name. */
  lemma {:induction false} BasenameIsLastSegment(name: string)
    ensures |Basename(name)| <= |name| && Basename(name) == name[|name| - |Basename(name)|..]
    ensures forall i :: 0 <= i < |Basename(name)| ==> Basename(name)[i] != '\\'
    ensures |Basename(name)| < |name| ==> name[|name| - |Basename(name)| - 1] == '\\'
  {
    if name != [] && name[|name| - 1] != '\\' {
      var init := name[..|name| - 1];
      BasenameIsLastSegment(init);
      assert name[|name| - |Basename(name)|..] == init[|init| - |Basename(init)|..] + [name[|name| - 1]];
    }
  }

  /** The index of the first guard that reports an authenticated user, `|guards|` when none does. */
  function FirstAuthenticated(guards: seq<string>, authenticated: map<string, string>): (i: nat)
    ensures i <= |guards|
    ensures forall j :: 0 <= j < i ==> guards[j] !in authenticated
    ensures i < |guards| ==> guards[i] in authenticated
  {
    if guards == [] then 0
    else if guards[0] in authenticated then 0
    else 1 + FirstAuthenticated(guards[1..], authenticated)
  }

  /** The first authenticated guard is the one before which no guard is authenticated. */
  lemma FirstAuthenticatedIs(guards: seq<string>, authenticated: map<string, string>, i: nat)
    requires i <= |guards|
    requires forall j :: 0 <= j < i ==> guards[j] !in authenticated
    requires i < |guards| ==> guards[i] in authenticated
    ensures FirstAuthenticated(guards, authenticated) == i
  {
  }

  /** The user part of the tag: `0` when skipped or when no guard is authenticated, else the first authenticated guard's id. */
  function UserSegment(skipUserTag: bool, guards: seq<string>, authenticated: map<string, string>): (id: string)
    ensures skipUserTag ==> id == "0"
    ensures (forall g :: g in guards ==> g !in authenticated) ==> id == "0"
  {
    if skipUserTag then "0"
    else
      var i := FirstAuthenticated(guards, authenticated);
      if i < |guards| then authenticated[guards[i]] else "0"
  }

  /** The guards are asked in configured order: a guard that is authenticated, with none before it, gives the id. */
  lemma UserSegmentFirstGuard(guards: seq<string>, authenticated: map<string, string>, i: nat)
    requires i < |guards| && guards[i] in authenticated
    requires forall j :: 0 <= j < i ==> guards[j] !in authenticated
    ensures UserSegment(false, guards, authenticated) == authenticated[guards[i]]
  {
    FirstAuthenticatedIs(guards, authenticated, i);
  }

  function Tag(basename: string, userSegment: string): string {
    basename + "_" + userSegment
  }

  /** One repository never shares a tag between two users: the tag determines the user segment. */
  lemma TagSeparatesUsers(basename: string, id1: string, id2: string)
    requires Tag(basename, id1) == Tag(basename, id2)
    ensures id1 == id2
  {
    var n := |basename| + 1;
    assert Tag(basename, id1)[n..] == id1;
    assert Tag(basename, id2)[n..] == id2;
  }

  // ---------------------------------------------------------------- criteria fingerprint

  function StrList(xs: seq<string>): (v: PhpValue)
    ensures v.List? && |v.items| == |xs|
    ensures forall i :: 0 <= i < |xs| ==> v.items[i] == Str(xs[i])
  {
    List(seq(|xs|, i requires 0 <= i < |xs| => Str(xs[i])))
  }

  function WhereValue(where: WhereMap): PhpValue {
    Assoc(seq(|where|, i requires 0 <= i < |where| => (where[i].0, Str(where[i].1))))
  }

  function OptionalStr(v: Option<string>): PhpValue {
    match v
    case None => Null
    case Some(s) => Str(s)
  }

  /** The declared properties of a criterion with their values, in declaration order. */
  function Properties(c: Criterion): seq<(string, PhpValue)> {
    match c
    case DateCriteria(from, to, column) => [("dateFrom", OptionalStr(from)), ("dateTo", OptionalStr(to)), ("column", Str(column))]
    case FindWhereCriteria(where) => [("where", WhereValue(where))]
    case OrWhereCriteria(where) => [("where", WhereValue(where))]
    case FindWhereInCriteria(column, values) => [("column", Str(column)), ("in", StrList(values))]
    case FindWhereNotInCriteria(column, notIn) => [("column", Str(column)), ("notIn", StrList(notIn))]
    case FindWhereOrWhereCriteria(where, orWhere) =>
      [("where", WhereValue(where)), ("orWhere", List(seq(|orWhere|, i requires 0 <= i < |orWhere| => WhereValue(orWhere[i]))))]
    case LimitCriteria(limit) => [("limit", Int(limit))]
    case OffsetCriteria(offset) => [("offset", Int(offset))]
    case Select2Criteria(phrase, select, field, limit) =>
      [("searchPhrase", Str(phrase)), ("select", StrList(select)), ("searchField", Str(field)), ("limit", Int(limit))]
    case UserDefined(_, fields, _, _, _, _) => seq(|fields|, i requires 0 <= i < |fields| => (fields[i].0, Str(fields[i].1)))
  }

  /** The criterion as the object `serialize($criterion)` sees. */
  function AsObject(c: Criterion): PhpValue {
    Object(ClassName(c), Properties(c))
  }

  /** Every criterion class of the package holds only strings, integers and arrays, so serializes. */
  predicate Serializable(c: Criterion) {
    !c.UserDefined? || c.serializable
  }

  const PropertyClass := "ReflectionProperty"
  const ParameterClass := "ReflectionParameter"

  /**
   * What reflection reports: one ReflectionProperty (its name and declaring
   * class) per declared property, or one ReflectionParameter (its name only)
   * per constructor parameter.
   */
  function Reflected(kind: string, c: Criterion): (v: PhpValue)
    ensures v.List? && |v.items| == |Properties(c)|
    ensures forall i :: 0 <= i < |v.items| ==>
      v.items[i].Object? && v.items[i].className == kind && |v.items[i].properties| >= 1 && v.items[i].properties[0] == ("name", Str(Properties(c)[i].0))
      && (|v.items[i].properties| == 2 <==> kind == PropertyClass)
    ensures kind == PropertyClass ==> forall i :: 0 <= i < |v.items| ==> v.items[i].properties[1] == ("class", Str(ClassName(c)))
  {
    var ps := Properties(c);
    var declaring := if kind == PropertyClass then [("class", Str(ClassName(c)))] else [];
    List(seq(|ps|, i requires 0 <= i < |ps| => Object(kind, [("name", Str(ps[i].0))] + declaring)))
  }

  /**
   * The criterion's hash can be computed: it serializes, or the md5 fallback
   * can cast it to a string. Otherwise the `(string)` cast throws an `Error`,
   * which `catch (\Exception)` does not take.
   */
  predicate Hashable(c: Criterion) {
    Serializable(c) || c.text.Some?
  }

  predicate AllHashable(items: seq<Item>) {
    forall i :: 0 <= i < |items| ==> Hashable(items[i].criterion)
  }

  /** Where `map` stops: the position of the first criterion, in Collection order, whose hash cannot be computed. */
  function FirstUnhashable(items: seq<Item>): (r: Option<nat>)
    ensures r.None? <==> AllHashable(items)
    ensures r.Some? ==> r.value < |items| && !Hashable(items[r.value].criterion)
    ensures r.Some? ==> forall j :: 0 <= j < r.value ==> Hashable(items[j].criterion)
  {
    if items == [] then None
    else if !Hashable(items[0].criterion) then Some(0)
    else match FirstUnhashable(items[1..])
      case None => None
      case Some(k) => Some(k + 1)
  }

  /**
   * The array recorded for one criterion: its serialized form, or the md5 of
   * its string form when serializing throws; its class name; and what
   * reflection says of its properties and constructor parameters.
   */
  function Fingerprint(codec: Codec, c: Criterion): (v: PhpValue)
    requires Hashable(c)
    ensures v.Assoc? && |v.entries| == 4
    ensures v.entries[0] == ("hash", Str(if Serializable(c) then codec.serialize(AsObject(c)) else codec.md5(c.text.value)))
    ensures v.entries[1] == ("criteria", Str(ClassName(c)))
  {
    var hash := if Serializable(c) then codec.serialize(AsObject(c)) else codec.md5(c.text.value);
    Assoc([("hash", Str(hash)), ("criteria", Str(ClassName(c))),
           ("properties", Reflected(PropertyClass, c)), ("parameters", Reflected(ParameterClass, c))])
  }

  /** The collection `map` builds: each criterion's fingerprint under the criterion's own key, in the Collection's order. */
  function Fingerprints(codec: Codec, items: seq<Item>): (vs: seq<(int, PhpValue)>)
    requires AllHashable(items)
    ensures |vs| == |items|
    ensures forall i :: 0 <= i < |items| ==> vs[i] == (items[i].key as int, Fingerprint(codec, items[i].criterion))
  {
    seq(|items|, i requires 0 <= i < |items| => (items[i].key as int, Fingerprint(codec, items[i].criterion)))
  }

  /** Pushing one more criterion adds its keyed fingerprint at the end and leaves the others as they were. */
  lemma FingerprintsPush(codec: Codec, items: seq<Item>, it: Item)
    requires AllHashable(items) && Hashable(it.criterion)
    ensures Fingerprints(codec, items + [it]) == Fingerprints(codec, items) + [(it.key as int, Fingerprint(codec, it.criterion))]
  {
    var vs := Fingerprints(codec, items + [it]);
    assert vs[|items|] == (it.key as int, Fingerprint(codec, it.criterion));
    assert vs[..|items|] == Fingerprints(codec, items);
    assert vs == vs[..|items|] + [vs[|items|]];
  }

  const CollectionClass := "Illuminate\\Support\\Collection"

  /** The Collection `map` returns, as `serialize` sees it. */
  function CriteriaCollection(codec: Codec, items: seq<Item>): PhpValue
    requires AllHashable(items)
  {
    Object(CollectionClass, [("items", Keyed(Fingerprints(codec, items)))])
  }

  /**
   * The value handed to `serialize` records every key: two stacks that
   * serialize from the same value hold the same criteria under the same
   * keys, so a stack whose keys were left with a gap by popCriteria is not
   * the stack of the same criteria pushed afresh.
   */
  lemma CollectionRecordsKeys(codec: Codec, a: seq<Item>, b: seq<Item>)
    requires AllHashable(a) && AllHashable(b)
    requires CriteriaCollection(codec, a) == CriteriaCollection(codec, b)
    ensures |a| == |b|
    ensures forall i :: 0 <= i < |a| ==> a[i].key == b[i].key && Fingerprint(codec, a[i].criterion) == Fingerprint(codec, b[i].criterion)
  {
    var fa := Fingerprints(codec, a);
    var fb := Fingerprints(codec, b);
    assert Keyed(fa) == Keyed(fb);
    forall i | 0 <= i < |a|
      ensures a[i].key == b[i].key && Fingerprint(codec, a[i].criterion) == Fingerprint(codec, b[i].criterion)
    {
      assert fa[i] == fb[i];
    }
  }

  /** Some criterion of the stack has a declared property, so reflection objects reach `serialize`. */
  predicate HoldsReflection(items: seq<Item>) {
    exists i :: 0 <= i < |items| && Properties(items[i].criterion) != []
  }

  /**
   * `getSerializedCriteria`: the serialized Collection, or `None` where it
   * throws: `map` stops at a criterion whose hash cannot be computed, and
   * `serialize` refuses the reflection objects inside the Collection. Neither
   * is inside the `try`.
   */
  function SerializedCriteria(codec: Codec, items: seq<Item>): (r: Option<string>)
    ensures r.None? <==> !AllHashable(items) || (!codec.reflectionSerializes && HoldsReflection(items))
    ensures r.Some? ==> AllHashable(items) && r.value == codec.serialize(CriteriaCollection(codec, items))
    ensures items == [] ==> r.Some?
  {
    if !AllHashable(items) || (!codec.reflectionSerializes && HoldsReflection(items)) then None
    else Some(codec.serialize(CriteriaCollection(codec, items)))
  }

  /** Every criterion class of the package declares a property, so where reflection objects are refused any stack holding one cannot be serialized. */
  lemma PackageCriterionBreaksSerialization(codec: Codec, items: seq<Item>, i: nat)
    requires !codec.reflectionSerializes
    requires i < |items| && !items[i].criterion.UserDefined?
    ensures SerializedCriteria(codec, items).None?
  {
    assert Properties(items[i].criterion) != [];
  }

  // ---------------------------------------------------------------- key

  function CacheKey(operation: string, className: string, tag: string, digest: Digest): string {
    operation + "@" + className + "_" + tag + "-" + digest
  }

  /** `{method}@{class}_{tag}-{digest}`: the method name leads, up to an `@`, and the digest is the last 32 characters. */
  lemma CacheKeyShape(operation: string, className: string, tag: string, digest: Digest)
    ensures var k := CacheKey(operation, className, tag, digest);
      && |k| == |operation| + |className| + |tag| + 35
      && k[..|operation|] == operation && k[|operation|] == '@'
      && k[|k| - 32..] == digest
  {
  }

  /**
   * The key of a call: the arguments' and criteria's serialized forms,
   * hashed together; `None` where the criteria cannot be serialized.
   */
  function ReadKey(codec: Codec, operation: string, arguments: seq<PhpValue>, className: string, tag: string, criteria: seq<Item>): Option<string> {
    match SerializedCriteria(codec, criteria)
    case None => None
    case Some(serialized) => Some(CacheKey(operation, className, tag, codec.md5(codec.serialize(List(arguments)) + serialized)))
  }

  /**
   * No key exists exactly when the criteria cannot be serialized; a derived
   * key opens with the method and `@`, and closes with the md5 of the
   * serialized arguments followed by the serialized criteria.
   */
  lemma ReadKeyShape(codec: Codec, operation: string, arguments: seq<PhpValue>, className: string, tag: string, criteria: seq<Item>)
    ensures var k := ReadKey(codec, operation, arguments, className, tag, criteria);
      && (k.None? <==> SerializedCriteria(codec, criteria).None?)
      && (k.Some? ==>
        && |k.value| >= |operation| + 35
        && k.value[..|operation|] == operation && k.value[|operation|] == '@'
        && k.value[|k.value| - 32..] == codec.md5(codec.serialize(List(arguments)) + SerializedCriteria(codec, criteria).value))
  {
    var serialized := SerializedCriteria(codec, criteria);
    if serialized.Some? {
      CacheKeyShape(operation, className, tag, codec.md5(codec.serialize(List(arguments)) + serialized.value));
    }
  }

  /** In a method name followed by `@…`, the first `@` is the one right after the name. */
  lemma AtEndsMethod(m: string, rest: string)
    requires '@' !in m && rest != [] && rest[0] == '@'
    ensures forall i :: 0 <= i < |m| ==> (m + rest)[i] != '@'
    ensures (m + rest)[|m|] == '@'
  {
  }

  /**
   * Within one repository class the key determines the method, the tag and
   * the digest: the method ends at the first `@`, and the digest is the last
   * 32 characters, after the tag and a `-`.
   */
  lemma CacheKeyInjective(m1: string, m2: string, className: string, t1: string, t2: string, d1: Digest, d2: Digest)
    requires '@' !in m1 && '@' !in m2
    requires CacheKey(m1, className, t1, d1) == CacheKey(m2, className, t2, d2)
    ensures m1 == m2 && t1 == t2 && d1 == d2
  {
    var k := CacheKey(m1, className, t1, d1);
    var rest1 := "@" + className + "_" + t1 + "-" + d1;
    var rest2 := "@" + className + "_" + t2 + "-" + d2;
    assert k == m1 + rest1;
    assert k == m2 + rest2;
    AtEndsMethod(m1, rest1);
    AtEndsMethod(m2, rest2);
    assert |m1| == |m2|;
    assert m1 == k[..|m1|] == m2;
    var n := |m1| + 1 + |className| + 1;
    var tail1 := t1 + "-" + d1;
    var tail2 := t2 + "-" + d2;
    assert k == m1 + "@" + className + "_" + tail1;
    assert k == m2 + "@" + className + "_" + tail2;
    assert k[n..] == tail1;
    assert k[n..] == tail2;
    assert |t1| == |t2|;
    assert t1 == tail1[..|t1|] == t2;
    assert d1 == tail1[|t1| + 1..] == d2;
  }
}
