/**
 * A value produced by `json.loads`, and the Python operations the scripts
 * apply to such values without checking their type first: `d.get(k, default)`,
 * `len(v)`, `for x in v`, `str(v)` and truthiness. An operation that Python
 * would refuse (`.get` on a list, `len` of an int) gives `None`, standing for
 * the exception; `TypeName` gives the name CPython puts in its message.
 */
module Json {

  import opened Wrappers
  import opened Strings

  /** JSON numbers are limited to integers; an object keeps its members in
      document order. */
  datatype Json =
    | JNull
    | JBool(b: bool)
    | JNum(n: int)
    | JStr(s: string)
    | JArr(items: seq<Json>)
    | JObj(members: seq<(string, Json)>)

  /** `type(v).__name__` */
  function TypeName(j: Json): string {
    match j
    case JNull => "NoneType"
    case JBool(_) => "bool"
    case JNum(_) => "int"
    case JStr(_) => "str"
    case JArr(_) => "list"
    case JObj(_) => "dict"
  }

  /** CPython's message for calling method `m` on a value that lacks it. */
  function NoAttribute(j: Json, m: string): string {
    "'" + TypeName(j) + "' object has no attribute '" + m + "'"
  }

  /** The value bound to `key` in a member list (the first binding). */
  function Lookup(ms: seq<(string, Json)>, key: string): (r: Option<Json>)
    ensures r.None? <==> forall i :: 0 <= i < |ms| ==> ms[i].0 != key
    ensures r.Some? ==> exists i :: 0 <= i < |ms| && ms[i] == (key, r.value)
  {
    if ms == [] then None
    else if ms[0].0 == key then Some(ms[0].1)
    else
      var r := Lookup(ms[1..], key);
      if r.Some? then
        var i :| 0 <= i < |ms[1..]| && ms[1..][i] == (key, r.value);
        assert ms[i + 1] == (key, r.value);
        r
      else r
  }

  /** `key in d` for a dict. */
  predicate HasKey(j: Json, key: string)
    requires j.JObj?
  {
    Lookup(j.members, key).Some?
  }

  /** `d.get(key, default)`; `None` when `d` is not a dict (AttributeError). */
  function Get(j: Json, key: string, default: Json): (r: Option<Json>)
    ensures r.Some? <==> j.JObj?
  {
    match j
    case JObj(ms) => Some(Lookup(ms, key).GetOr(default))
    case _ => None
  }

  /** `bool(v)` */
  predicate Truthy(j: Json) {
    match j
    case JNull => false
    case JBool(b) => b
    case JNum(n) => n != 0
    case JStr(s) => s != []
    case JArr(items) => items != []
    case JObj(ms) => ms != []
  }

  /** `len(v)`; `None` for a number, a boolean or null (TypeError). */
  function Len(j: Json): Option<nat> {
    match j
    case JStr(s) => Some(|s|)
    case JArr(items) => Some(|items|)
    case JObj(ms) => Some(|ms|)
    case _ => None
  }

  /** What `for x in v` visits: the items of a list, the keys of a dict, the
      characters of a string; `None` when `v` is not iterable. */
  function Iter(j: Json): (r: Option<seq<Json>>)
    ensures r.Some? <==> Len(j).Some?
    ensures r.Some? ==> |r.value| == Len(j).value
  {
    match j
    case JStr(s) => Some(seq(|s|, i requires 0 <= i < |s| => JStr([s[i]])))
    case JArr(items) => Some(items)
    case JObj(ms) => Some(seq(|ms|, i requires 0 <= i < |ms| => JStr(ms[i].0)))
    case _ => None
  }

  function JoinWith(ps: seq<string>, sep: string): string {
    if |ps| == 0 then ""
    else if |ps| == 1 then ps[0]
    else ps[0] + sep + JoinWith(ps[1..], sep)
  }

  /** `str(v)`, as an f-string renders it. */
  function Str(j: Json): string {
    match j
    case JStr(s) => s
    case _ => Repr(j)
  }

  /** `repr(v)`; strings are quoted with single quotes without escaping. */
  function Repr(j: Json): string
    decreases j
  {
    match j
    case JNull => "None"
    case JBool(b) => if b then "True" else "False"
    case JNum(n) => IntToString(n)
    case JStr(s) => "'" + s + "'"
    case JArr(items) =>
      "[" + JoinWith(seq(|items|, i requires 0 <= i < |items| => Repr(items[i])), ", ") + "]"
    case JObj(ms) =>
      "{" + JoinWith(seq(|ms|, i requires 0 <= i < |ms| => MemberRepr(j, ms[i])), ", ") + "}"
  }

  function MemberRepr(j: Json, m: (string, Json)): string
    requires j.JObj? && m in j.members
    decreases j, 0
  {
    "'" + m.0 + "': " + Repr(m.1)
  }
}
