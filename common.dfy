/** Option and Result, JavaScript truthiness, and the array operations Parse
 *  applies to a list field on save (`remove`, `addUnique`). */
module Common {

  datatype Option<+T> = None | Some(value: T)

  /** A handler's answer: `response.success(value)` or `response.error(error)`. */
  datatype Result<+T> = Ok(value: T) | Err(error: string)

  /** The error Parse reports when `get` finds no object with the id. */
  const ObjectNotFound := "Object not found."

  /** The error a handler reports when its callback throws a JavaScript TypeError
   *  (a property read on undefined). */
  const TypeErrorRaised := "TypeError"

  /** JavaScript truthiness of an optional string: absent and "" are falsy. */
  predicate Truthy(s: Option<string>)
  {
    s.Some? && s.value != ""
  }

  predicate NoDup<T(==,!new)>(s: seq<T>)
  {
    forall i, j :: 0 <= i < j < |s| ==> s[i] != s[j]
  }

  /** `found` lists exactly the elements of `want`, each once: the answer of a storage query. */
  ghost predicate Lists<T(!new)>(found: seq<T>, want: set<T>)
  {
    NoDup(found) && forall x :: x in found <==> x in want
  }

  /** Parse's `remove` on an array: every occurrence of x goes, the rest keeps its order. */
  function Without<T(==,!new)>(s: seq<T>, x: T): (r: seq<T>)
    ensures x !in r
    ensures forall y :: y in r <==> y in s && y != x
    ensures |r| <= |s|
    ensures x !in s ==> r == s
  {
    if s == [] then []
    else if s[0] == x then Without(s[1..], x)
    else [s[0]] + Without(s[1..], x)
  }

  /** Parse's `addUnique` on an array: x is appended unless already present. */
  function AddUnique<T(==,!new)>(s: seq<T>, x: T): (r: seq<T>)
    ensures x in r
    ensures forall y :: y in r <==> y in s || y == x
    ensures x in s ==> r == s
    ensures NoDup(s) ==> NoDup(r)
  {
    if x in s then s else s + [x]
  }

  /** `remove` applied to a list field that may be missing; the server leaves a missing field missing. */
  function Pull<T(==,!new)>(field: Option<seq<T>>, x: T): (r: Option<seq<T>>)
    ensures r.Some? <==> field.Some?
    ensures r.Some? ==> x !in r.value && forall y :: y != x ==> (y in r.value <==> y in field.value)
  {
    if field.Some? then Some(Without(field.value, x)) else None
  }

  /** `addUnique` applied to a list field that may be missing; a missing field becomes [x]. */
  function PushUnique<T(==,!new)>(field: Option<seq<T>>, x: T): (r: Option<seq<T>>)
    ensures r.Some? && x in r.value
    ensures field.Some? ==> forall y :: y in r.value <==> y in field.value || y == x
    ensures field.None? ==> r.value == [x]
  {
    if field.Some? then Some(AddUnique(field.value, x)) else Some([x])
  }
}
