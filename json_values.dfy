/**
 * Decoded JSON values, as `json.loads` hands them to the analysis nodes, and the
 * pydantic field checks the nodes rely on when they build records from them.
 * JSON numbers with a fractional part are not represented (see README).
 */
module JsonValues {
  import opened Wrappers

  datatype Json =
    | JNull
    | JBool(b: bool)
    | JInt(n: int)
    | JStr(s: string)
    | JArr(elems: seq<Json>)
    | JObj(fields: map<string, Json>)

  type Fields = map<string, Json>

  /** Python truthiness of a decoded value (`if value:`). */
  predicate Truthy(j: Json)
  {
    match j
    case JNull => false
    case JBool(b) => b
    case JInt(n) => n != 0
    case JStr(s) => s != ""
    case JArr(e) => e != []
    case JObj(f) => f != map[]
  }

  /** `raw.get(key)`: the value stored under `key`, or None. */
  function Get(f: Fields, key: string): (r: Option<Json>)
    ensures r.Some? <==> key in f
    ensures r.Some? ==> r.value == f[key]
  {
    if key in f then Some(f[key]) else None
  }

  /** The text of the validation error raised for a field of the wrong type. */
  function FieldError(key: string): string
  {
    "invalid value for field " + key
  }

  /**
   * `raw.get(key, default)` passed to a pydantic `str` field: a missing key gives the
   * default, a JSON string is kept, any other value is rejected.
   */
  function StrField(f: Fields, key: string, default: string): (r: Result<string, string>)
    ensures r.Success? <==> (key !in f || f[key].JStr?)
    ensures key !in f ==> r == Success(default)
    ensures key in f && f[key].JStr? ==> r == Success(f[key].s)
  {
    if key !in f then Success(default)
    else if f[key].JStr? then Success(f[key].s)
    else Failure(FieldError(key))
  }

  /**
   * `raw.get(key)` passed to a pydantic `str | None` field: missing or null gives None,
   * a JSON string is kept, any other value is rejected.
   */
  function OptStrField(f: Fields, key: string): (r: Result<Option<string>, string>)
    ensures r.Success? <==> (key !in f || f[key].JNull? || f[key].JStr?)
    ensures r == Success(None) <==> (key !in f || f[key].JNull?)
    ensures key in f && f[key].JStr? ==> r == Success(Some(f[key].s))
  {
    if key !in f || f[key].JNull? then Success(None)
    else if f[key].JStr? then Success(Some(f[key].s))
    else Failure(FieldError(key))
  }

  predicate AllStrings(xs: seq<Json>)
  {
    forall i | 0 <= i < |xs| :: xs[i].JStr?
  }

  function Strings(xs: seq<Json>): (r: seq<string>)
    requires AllStrings(xs)
    ensures |r| == |xs|
    ensures forall i | 0 <= i < |xs| :: r[i] == xs[i].s
  {
    seq(|xs|, i requires 0 <= i < |xs| => xs[i].s)
  }

  /**
   * `raw.get(key, [])` passed to a pydantic `list[str]` field: a missing key gives the
   * empty list, an array of strings is kept, anything else is rejected.
   */
  function StrListField(f: Fields, key: string): (r: Result<seq<string>, string>)
    ensures r.Success? <==> (key !in f || (f[key].JArr? && AllStrings(f[key].elems)))
    ensures key !in f ==> r == Success([])
  {
    if key !in f then Success([])
    else if f[key].JArr? && AllStrings(f[key].elems) then Success(Strings(f[key].elems))
    else Failure(FieldError(key))
  }

  /**
   * The integer Python sees in a decoded value: an int, or a bool (a subclass of int).
   * Every other value makes `min`/`max` against an int raise TypeError.
   */
  function AsInt(j: Json): (r: Option<int>)
    ensures r.Some? <==> (j.JInt? || j.JBool?)
    ensures j.JInt? ==> r == Some(j.n)
    ensures j.JBool? ==> r == Some(if j.b then 1 else 0)
  {
    match j
    case JInt(n) => Some(n)
    case JBool(b) => Some(if b then 1 else 0)
    case _ => None
  }

  /**
   * What `for raw in value:` iterates over when each item is then read with `raw.get`:
   * the items of an array; the keys of an object, which are strings; the characters of
   * a string. Iterating null, a bool or an int raises TypeError, and any string item
   * raises AttributeError at `.get`, so only an array or an empty object or string
   * yields a list of entries.
   */
  function Entries(j: Json): (r: Result<seq<Json>, string>)
    ensures j.JArr? ==> r == Success(j.elems)
    ensures r.Success? <==> (j.JArr? || j == JObj(map[]) || j == JStr(""))
  {
    match j
    case JArr(xs) => Success(xs)
    case JObj(f) => if f == map[] then Success([]) else Failure("'str' object has no attribute 'get'")
    case JStr(s) => if s == "" then Success([]) else Failure("'str' object has no attribute 'get'")
    case _ => Failure("object is not iterable")
  }
}
