/**
 * The error a repository raises when the container hands it something that
 * is not an ORM model: its message is a template with the class name put in
 * place of the `:namespace` placeholder, and its code is fixed.
 */
module EntityException {
  import opened Wrappers

  /** An exception passed along as the cause; only carried, never inspected. */
  datatype Throwable = Throwable(className: string, message: string)

  datatype RepositoryEntityException = RepositoryEntityException(message: string, code: int, previous: Option<Throwable>)

  /** The message template: "Given class (:namespace) must be instance of Model class!" */
  const Template := Before + Placeholder + After
  const Before := "Given class ("
  const Placeholder := ":namespace"
  const After := ") must be instance of Model class!"
  const Code := 500

  /**
   * PHP's `strtr` with a single replacement pair: one pass from left to
   * right; where the key starts, the replacement is emitted and the scan
   * resumes after the key, so replaced text is never scanned again.
   */
  function Strtr(s: string, key: string, replacement: string): (r: string)
    requires key != []
    ensures |replacement| >= |key| ==> |r| >= |s|
    ensures |replacement| == |key| ==> |r| == |s|
    ensures key <= s ==> |r| >= |replacement| && r[..|replacement|] == replacement
    decreases |s|
  {
    if s == [] then []
    else if key <= s then replacement + Strtr(s[|key|..], key, replacement)
    else [s[0]] + Strtr(s[1..], key, replacement)
  }

  /** Text in which the key's first character never occurs comes out unchanged. */
  lemma {:induction false} StrtrNoKey(s: string, key: string, replacement: string)
    requires key != []
    requires forall i :: 0 <= i < |s| ==> s[i] != key[0]
    ensures Strtr(s, key, replacement) == s
    decreases |s|
  {
    if s != [] {
      assert !(key <= s) by { assert s[0] != key[0]; }
      StrtrNoKey(s[1..], key, replacement);
    }
  }

  /** Text without the key's first character is copied, and the scan goes on after it. */
  lemma {:induction false} StrtrPrefix(a: string, b: string, key: string, replacement: string)
    requires key != []
    requires forall i :: 0 <= i < |a| ==> a[i] != key[0]
    ensures Strtr(a + b, key, replacement) == a + Strtr(b, key, replacement)
    decreases |a|
  {
    if a == [] {
      assert a + b == b;
    } else {
      assert !(key <= a + b) by { assert (a + b)[0] == a[0] != key[0]; }
      assert (a + b)[1..] == a[1..] + b;
      StrtrPrefix(a[1..], b, key, replacement);
      assert a == [a[0]] + a[1..];
    }
  }

  /** `strtr(template, [':namespace' => $namespace])`; a null name reads as the empty string. */
  function EntityMessage(namespace: Option<string>): (m: string)
    ensures m == Before + namespace.GetOr("") + After
  {
    TemplateSubstitution(namespace.GetOr(""));
    Strtr(Template, Placeholder, namespace.GetOr(""))
  }

  /** A text holding the key once, with the key's first character nowhere else, gets exactly one substitution. */
  lemma {:induction false} StrtrOnce(before: string, after: string, key: string, replacement: string)
    requires key != []
    requires forall i :: 0 <= i < |before| ==> before[i] != key[0]
    requires forall i :: 0 <= i < |after| ==> after[i] != key[0]
    ensures Strtr(before + key + after, key, replacement) == before + replacement + after
  {
    var rest := key + after;
    assert before + key + after == before + rest;
    StrtrPrefix(before, rest, key, replacement);
    StrtrNoKey(after, key, replacement);
    assert Strtr(rest, key, replacement) == replacement + after by {
      assert rest != [] && key <= rest;
      assert rest[|key|..] == after;
    }
  }

  /** The template holds the placeholder exactly once, between Before and After. */
  lemma TemplateSubstitution(name: string)
    ensures Strtr(Template, Placeholder, name) == Before + name + After
  {
    StrtrOnce(Before, After, Placeholder, name);
  }

  /** The exception's constructor: substituted message, code 500, the cause passed through. */
  function NewRepositoryEntityException(namespace: Option<string>, previous: Option<Throwable> := None): (e: RepositoryEntityException)
    ensures e.message == "Given class (" + namespace.GetOr("") + ") must be instance of Model class!"
    ensures e.code == 500
    ensures e.previous == previous
  {
    RepositoryEntityException(EntityMessage(namespace), Code, previous)
  }

  /** A class name that itself contains the placeholder is inserted as is, not substituted again. */
  lemma EntityMessageNotRescanned(suffix: string)
    ensures EntityMessage(Some(Placeholder + suffix)) == "Given class (" + Placeholder + suffix + ") must be instance of Model class!"
  {
  }
}
