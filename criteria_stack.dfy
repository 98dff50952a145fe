/**
 * The criteria stack as values: the fold `applyCriteria` performs over it,
 * and the filter `popCriteria` performs on it.
 */
module CriteriaStack {
  import opened QueryBuilder
  import opened Criteria

  /** One turn of applyCriteria's loop: a criterion outside the abstract base class is passed over. */
  function ApplyOne(c: Criterion, q: Query): (r: Query)
    ensures Extends(q, r)
    ensures !ExtendsBase(c) ==> r == q
  {
    if ExtendsBase(c) then Apply(c, q) else q
  }

  /**
   * applyCriteria with the skip flag off: each criterion receives the handle
   * already transformed by all the criteria pushed before it. Written from
   * the back, so that the loop's invariant is one unfolding away;
   * ApplyAllCons shows it is the left fold from the front.
   */
  function ApplyAll(cs: seq<Criterion>, q: Query): (r: Query)
    ensures Extends(q, r)
  {
    if cs == [] then q
    else
      var prior := ApplyAll(cs[..|cs| - 1], q);
      ExtendsTransitive(q, prior, ApplyOne(cs[|cs| - 1], prior));
      ApplyOne(cs[|cs| - 1], prior)
  }

  /** Applying a stack is applying its first criterion, then the rest to the result. */
  lemma {:induction false} ApplyAllCons(c: Criterion, cs: seq<Criterion>, q: Query)
    ensures ApplyAll([c] + cs, q) == ApplyAll(cs, ApplyOne(c, q))
    decreases |cs|
  {
    if cs == [] {
      assert [c] + cs == [c];
      assert [c][..0] == [];
    } else {
      var init := cs[..|cs| - 1];
      assert ([c] + cs)[..|[c] + cs| - 1] == [c] + init;
      ApplyAllCons(c, init, q);
    }
  }

  /** Applying two stacks in turn is applying their concatenation: order is insertion order. */
  lemma {:induction false} ApplyAllAppend(a: seq<Criterion>, b: seq<Criterion>, q: Query)
    ensures ApplyAll(a + b, q) == ApplyAll(b, ApplyAll(a, q))
    decreases |b|
  {
    if b == [] {
      assert a + b == a;
    } else {
      var init := b[..|b| - 1];
      assert (a + b)[..|a + b| - 1] == a + init;
      ApplyAllAppend(a, init, q);
    }
  }

  /** The criteria applyCriteria acts on: those extending the abstract base class, in order. */
  function OnlyBase(cs: seq<Criterion>): (r: seq<Criterion>)
    ensures forall c :: c in r ==> c in cs && ExtendsBase(c)
  {
    if cs == [] then []
    else
      var init := OnlyBase(cs[..|cs| - 1]);
      if ExtendsBase(cs[|cs| - 1]) then init + [cs[|cs| - 1]] else init
  }

  /** Criteria that do not extend the base class have no effect at all on the applied handle. */
  lemma {:induction false} ApplyAllSkipsForeign(cs: seq<Criterion>, q: Query)
    ensures ApplyAll(cs, q) == ApplyAll(OnlyBase(cs), q)
    decreases |cs|
  {
    if cs != [] {
      var init := cs[..|cs| - 1];
      var last := cs[|cs| - 1];
      ApplyAllSkipsForeign(init, q);
      if ExtendsBase(last) {
        ApplyAllAppend(OnlyBase(init), [last], q);
        assert [last][..0] == [];
      }
    }
  }

  /** Where clauses present before the criteria are applied stay, in order, ahead of theirs. */
  lemma ApplyAllKeepsWheres(cs: seq<Criterion>, q: Query)
    ensures Wheres(q.steps) <= Wheres(ApplyAll(cs, q).steps)
  {
    var r := ApplyAll(cs, q);
    var extra := r.steps[|q.steps|..];
    assert r.steps == q.steps + extra;
    WheresAppend(q.steps, extra);
  }

  /**
   * Criteria of the package add clauses, selects, limits and offsets, never a
   * builder modifier: every modifier on the result was on the handle already
   * or is a call some application criterion of the stack makes.
   */
  lemma {:induction false} ApplyAllAddsNoModifiers(cs: seq<Criterion>, q: Query)
    ensures forall s :: s in ApplyAll(cs, q).steps && s.Modify? ==>
      s in q.steps || exists c :: c in cs && c.UserDefined? && s in c.calls
    ensures (forall c :: c in cs ==> AddsNoModifier(c)) ==>
      forall s :: s in ApplyAll(cs, q).steps && s.Modify? ==> s in q.steps
    decreases |cs|
  {
    if cs != [] {
      var init := cs[..|cs| - 1];
      var last := cs[|cs| - 1];
      var prior := ApplyAll(init, q);
      ApplyAllAddsNoModifiers(init, q);
      var r := ApplyOne(last, prior);
      assert r.steps == prior.steps + r.steps[|prior.steps|..];
      forall s | s in r.steps && s.Modify?
        ensures s in q.steps || exists c :: c in cs && c.UserDefined? && s in c.calls
        ensures (forall c :: c in cs ==> AddsNoModifier(c)) ==> s in q.steps
      {
        if s in prior.steps {
          if !(s in q.steps) {
            var c :| c in init && c.UserDefined? && s in c.calls;
            assert c in cs;
          }
        } else {
          assert s in r.steps[|prior.steps|..];
          ApplyAddsNoModifiers(last, prior, s);
          assert last in cs;
        }
      }
    }
  }

  /** popCriteria's filter: every criterion whose class is exactly `name` is dropped. */
  function Reject(cs: seq<Criterion>, name: string): (r: seq<Criterion>)
    ensures forall c :: c in r ==> c in cs && ClassName(c) != name
    ensures |r| <= |cs|
  {
    if cs == [] then []
    else
      var init := Reject(cs[..|cs| - 1], name);
      if ClassName(cs[|cs| - 1]) == name then init else init + [cs[|cs| - 1]]
  }

  /** Filtering a concatenation filters each part: the survivors keep their relative order. */
  lemma {:induction false} RejectAppend(a: seq<Criterion>, b: seq<Criterion>, name: string)
    ensures Reject(a + b, name) == Reject(a, name) + Reject(b, name)
    decreases |b|
  {
    if b == [] {
      assert a + b == a;
    } else {
      var init := b[..|b| - 1];
      assert (a + b)[..|a + b| - 1] == a + init;
      RejectAppend(a, init, name);
    }
  }

  /** Every criterion of another class survives as many times as it was pushed. */
  lemma {:induction false} RejectKeepsOthers(cs: seq<Criterion>, name: string, c: Criterion)
    requires ClassName(c) != name
    ensures multiset(Reject(cs, name))[c] == multiset(cs)[c]
    decreases |cs|
  {
    if cs != [] {
      var init := cs[..|cs| - 1];
      assert cs == init + [cs[|cs| - 1]];
      RejectKeepsOthers(init, name, c);
    }
  }

  /** A stack holding no criterion of the class is left exactly as it was. */
  lemma {:induction false} RejectAbsent(cs: seq<Criterion>, name: string)
    requires forall c :: c in cs ==> ClassName(c) != name
    ensures Reject(cs, name) == cs
    decreases |cs|
  {
    if cs != [] {
      var init := cs[..|cs| - 1];
      assert cs == init + [cs[|cs| - 1]];
      RejectAbsent(init, name);
    }
  }

  /** Popping the same class twice is popping it once. */
  lemma RejectIdempotent(cs: seq<Criterion>, name: string)
    ensures Reject(Reject(cs, name), name) == Reject(cs, name)
  {
    RejectAbsent(Reject(cs, name), name);
  }

  /**
   * One element of the criteria Collection: the array key PHP gave it and the
   * criterion. Keys matter because popCriteria keeps them and the cache key
   * serializes them.
   */
  datatype Item = Item(key: nat, criterion: Criterion)

  /** The criteria of a Collection, in its order, without their keys. */
  function Values(items: seq<Item>): (cs: seq<Criterion>)
    ensures |cs| == |items|
    ensures forall i :: 0 <= i < |items| ==> cs[i] == items[i].criterion
  {
    seq(|items|, i requires 0 <= i < |items| => items[i].criterion)
  }

  lemma ValuesAppend(a: seq<Item>, b: seq<Item>)
    ensures Values(a + b) == Values(a) + Values(b)
  {
  }

  /** The key `push` gives: one past the largest integer key, 0 in an empty array. */
  function NextKey(items: seq<Item>): (k: nat)
    ensures forall i :: 0 <= i < |items| ==> items[i].key < k
    ensures k == 0 || exists i :: 0 <= i < |items| && k == items[i].key + 1
  {
    if items == [] then 0
    else
      var init := items[..|items| - 1];
      var k0 := NextKey(init);
      var last := items[|items| - 1].key + 1;
      assert forall i :: 0 <= i < |init| ==> init[i] == items[i];
      if last > k0 then last else k0
  }

  /** popCriteria on the Collection: the survivors keep their keys, so a gap can open. */
  function RejectItems(items: seq<Item>, name: string): (r: seq<Item>)
    ensures forall it :: it in r ==> it in items && ClassName(it.criterion) != name
  {
    if items == [] then []
    else
      var init := RejectItems(items[..|items| - 1], name);
      var last := items[|items| - 1];
      if ClassName(last.criterion) == name then init else init + [last]
  }

  /** Without their keys, the surviving entries are exactly Reject of the criteria. */
  lemma {:induction false} RejectItemsValues(items: seq<Item>, name: string)
    ensures Values(RejectItems(items, name)) == Reject(Values(items), name)
    decreases |items|
  {
    if items != [] {
      var init := items[..|items| - 1];
      var last := items[|items| - 1];
      RejectItemsValues(init, name);
      assert Values(init) == Values(items)[..|items| - 1];
      ValuesAppend(RejectItems(init, name), [last]);
    }
  }
}
