/** A parsed JSON document, as Python's json module hands it to the
    validator, together with the few pieces of Python semantics the
    validator applies to such values: the `in` operator, truthiness,
    `len` and iteration by a `for` loop. */
module JsonValues {

  /** A JSON value. Objects keep their members in document order, because
      a Python dict keeps insertion order; numbers are integers only. */
  datatype Json =
    | JNull
    | JBool(b: bool)
    | JNum(n: int)
    | JStr(s: string)
    | JArr(items: seq<Json>)
    | JObj(members: seq<(string, Json)>)

  /** What a JSON decoder produces for an object: a dictionary, in which no
      key appears twice. */
  predicate DistinctKeys(members: seq<(string, Json)>)
  {
    forall i, j :: 0 <= i < j < |members| ==> members[i].0 != members[j].0
  }

  /** A value a JSON decoder produces: every object in it, at any depth, is
      a dictionary. */
  predicate Decoded(j: Json)
  {
    match j
    case JArr(items) => forall x :: x in items ==> Decoded(x)
    case JObj(members) =>
      DistinctKeys(members) && forall i :: 0 <= i < |members| ==> Decoded(members[i].1)
    case _ => true
  }

  /** Where key `k` first stands among the members; |members| when it is
      not one of the keys. */
  function KeyIndex(members: seq<(string, Json)>, k: string): (i: nat)
    ensures i <= |members|
    ensures i < |members| ==> members[i].0 == k
  {
    if members == [] then 0
    else if members[0].0 == k then 0
    else 1 + KeyIndex(members[1..], k)
  }

  /** Python's `k in d` on a dict. */
  predicate IsKey(members: seq<(string, Json)>, k: string)
  {
    KeyIndex(members, k) < |members|
  }

  /** The value stored under key `k` (Python's `d[k]` on a dict). */
  function Get(members: seq<(string, Json)>, k: string): Json
    requires IsKey(members, k)
  {
    members[KeyIndex(members, k)].1
  }

  /** KeyIndex finds the first member with key `k`. */
  lemma {:induction false} KeyIndexFirst(members: seq<(string, Json)>, k: string, j: int)
    requires 0 <= j < |members| && members[j].0 == k
    ensures KeyIndex(members, k) <= j
  {
    if members[0].0 != k {
      assert members[1..][j - 1] == members[j];
      KeyIndexFirst(members[1..], k, j - 1);
    }
  }

  /** Values that support Python's `in` operator, `for` iteration and
      `len`. */
  predicate IsContainer(j: Json)
  {
    j.JStr? || j.JArr? || j.JObj?
  }

  /** Values that may be looked up in a Python set or dict. */
  predicate Hashable(j: Json)
  {
    !j.JArr? && !j.JObj?
  }

  /** `k <= s` is Dafny's prefix test; Python's `k in s` on two strings asks
      for a contiguous occurrence anywhere. */
  predicate IsSubstring(k: string, s: string)
  {
    k <= s || (|s| > 0 && IsSubstring(k, s[1..]))
  }

  /** Python's `key in c`: a key of a dict, an element of a list, or a
      substring of a string. */
  predicate PyIn(key: string, c: Json)
    requires IsContainer(c)
  {
    match c
    case JObj(members) => IsKey(members, key)
    case JArr(items) => JStr(key) in items
    case JStr(s) => IsSubstring(key, s)
  }

  /** Python's truthiness: `not v` holds of None, False, 0 and of the empty
      string, list and dict. */
  predicate Falsy(j: Json)
  {
    match j
    case JNull => true
    case JBool(b) => !b
    case JNum(n) => n == 0
    case JStr(s) => s == []
    case JArr(items) => items == []
    case JObj(members) => members == []
  }

  /** Python's `len`: characters of a string, elements of a list, keys of a
      dict. */
  function Len(j: Json): nat
    requires IsContainer(j)
  {
    match j
    case JStr(s) => |s|
    case JArr(items) => |items|
    case JObj(members) => |members|
  }

  /** What a Python `for` loop visits: the elements of a list, the keys of a
      dict, the one-character strings of a string. */
  function Iterate(c: Json): (vs: seq<Json>)
    requires IsContainer(c)
    ensures c.JArr? ==> vs == c.items
    ensures c.JObj? ==> |vs| == |c.members| && forall i :: 0 <= i < |vs| ==> vs[i] == JStr(c.members[i].0)
    ensures c.JStr? ==> |vs| == |c.s| && forall i :: 0 <= i < |vs| ==> vs[i] == JStr([c.s[i]])
  {
    match c
    case JArr(items) => items
    case JObj(members) => seq(|members|, i requires 0 <= i < |members| => JStr(members[i].0))
    case JStr(s) => seq(|s|, i requires 0 <= i < |s| => JStr([s[i]]))
  }

  /** A `for` loop over a list or dict visits `k` exactly when `k in c`
      holds. */
  lemma IterateIn(c: Json, k: string)
    requires c.JArr? || c.JObj?
    ensures JStr(k) in Iterate(c) <==> PyIn(k, c)
  {
    if c.JObj? {
      var vs := Iterate(c);
      if JStr(k) in vs {
        var j :| 0 <= j < |vs| && vs[j] == JStr(k);
        KeyIndexFirst(c.members, k, j);
      }
    }
  }
}
