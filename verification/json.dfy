/** Decoded JSON values as the toolkit sees them after `Response.json()`, with
    the Python operations applied to them: truthiness, `dict.get`, `int()`
    and `str()`.
 */
module Json {
  import opened Outcome
  import Text

  /** A JSON value. Objects keep their members in document order; floats are
      not part of the model. */
  datatype Json =
      Null
    | Bool(b: bool)
    | Int(i: int)
    | Str(s: string)
    | Arr(items: seq<Json>)
    | Obj(fields: seq<(string, Json)>)

  /** Python truthiness of the decoded value. */
  predicate Truthy(j: Json) {
    match j
    case Null => false
    case Bool(b) => b
    case Int(i) => i != 0
    case Str(s) => s != []
    case Arr(items) => items != []
    case Obj(fields) => fields != []
  }

  /** The member stored under `key`, if any. A key repeated in the document
      keeps its last value, as `json.loads` builds the `dict`. */
  function Lookup(fields: seq<(string, Json)>, key: string): (r: Option<Json>)
    ensures r.Some? <==> exists i | 0 <= i < |fields| :: fields[i].0 == key
    ensures r.Some? ==> exists i | 0 <= i < |fields| :: fields[i] == (key, r.value)
  {
    if fields == [] then None
    else
      var rest := Lookup(fields[1..], key);
      assert forall i | 0 <= i < |fields[1..]| :: fields[1..][i] == fields[i + 1];
      if rest.Some? then rest
      else if fields[0].0 == key then Some(fields[0].1)
      else None
  }

  /** The value read for a key is the one of its last member: no later
      member carries the key. */
  lemma {:induction false} LookupLast(fields: seq<(string, Json)>, key: string, i: nat)
    requires i < |fields| && fields[i].0 == key
    requires forall j | i < j < |fields| :: fields[j].0 != key
    ensures Lookup(fields, key) == Some(fields[i].1)
    decreases |fields|
  {
    var rest := fields[1..];
    assert forall j | 0 <= j < |rest| :: rest[j] == fields[j + 1];
    if i == 0 {
      assert !exists j | 0 <= j < |rest| :: rest[j].0 == key;
    } else {
      LookupLast(rest, key, i - 1);
    }
  }

  /** `d.get(key)` on a decoded object; `None` for a missing key or for a value
      that is not an object. */
  function Get(j: Json, key: string): Option<Json> {
    if j.Obj? then Lookup(j.fields, key) else None
  }

  /** `d.get(key)` with a JSON `null` read as Python `None`, the way
      `x.get("id") is None` tests it. */
  function GetPresent(j: Json, key: string): (r: Option<Json>)
    ensures r.Some? ==> r.value != Null && Get(j, key) == r
    ensures r.None? ==> Get(j, key).None? || Get(j, key) == Some(Null)
  {
    match Get(j, key)
    case Some(Null) => None
    case other => other
  }

  /** Python `int(x)` of a decoded value; `None` where it raises `TypeError`
      or `ValueError`. A `bool` is an `int` in Python. */
  function PyInt(j: Json): (r: Option<int>)
    ensures j.Int? ==> r == Some(j.i)
    ensures (j.Null? || j.Arr? || j.Obj?) ==> r.None?
    ensures j.Str? ==> r == Text.ParseInt(j.s)
  {
    match j
    case Int(i) => Some(i)
    case Bool(b) => Some(if b then 1 else 0)
    case Str(s) => Text.ParseInt(s)
    case _ => None
  }

  /** Python `str(x)` of a scalar as an f-string splices it into a URL. */
  function PyStr(j: Json): (r: string)
    ensures j.Str? ==> r == j.s
  {
    match j
    case Null => "None"
    case Bool(b) => if b then "True" else "False"
    case Int(i) => Text.DecimalString(i)
    case Str(s) => s
    case Arr(_) => "[...]"
    case Obj(_) => "{...}"
  }

  /** An integer identifier survives the trip into a URL and back through `int()`. */
  lemma PyIntOfPyStr(n: int)
    ensures PyInt(Str(PyStr(Int(n)))) == Some(n)
  {
    Text.ParseDecimalString(n);
  }
}
