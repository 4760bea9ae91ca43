/**
 * JSON values as the server and the pages see them after parsing, with
 * JavaScript's truthiness and its `||` and `&&` operators. A property that
 * is absent (`undefined`) is `None`.
 */
module Json {
  import opened Text

  datatype Json =
    | Null
    | Bool(b: bool)
    | Num(n: int)
    | Str(s: string)
    | Arr(items: seq<Json>)
    | Obj(fields: map<string, Json>)

  /** A stored record: one JSON object. */
  type Record = map<string, Json>

  /** JavaScript truthiness; `undefined` is falsy, every array and object is truthy. */
  predicate Truthy(v: Option<Json>) {
    match v
    case None => false
    case Some(Null) => false
    case Some(Bool(b)) => b
    case Some(Num(n)) => n != 0
    case Some(Str(s)) => s != ""
    case Some(Arr(_)) => true
    case Some(Obj(_)) => true
  }

  /** `a || b`. */
  function Or(a: Option<Json>, b: Option<Json>): (r: Option<Json>)
    ensures Truthy(r) <==> Truthy(a) || Truthy(b)
    ensures Truthy(a) ==> r == a
    ensures !Truthy(a) ==> r == b
  {
    if Truthy(a) then a else b
  }

  /** `a && b`. */
  function And(a: Option<Json>, b: Option<Json>): (r: Option<Json>)
    ensures Truthy(r) <==> Truthy(a) && Truthy(b)
    ensures !Truthy(a) ==> r == a
    ensures Truthy(a) ==> r == b
  {
    if Truthy(a) then b else a
  }

  /** `r.key` on a record. */
  function Get(r: Record, key: string): Option<Json> {
    if key in r then Some(r[key]) else None
  }

  /** `v.key` where `v` may be any value; only objects have properties here. */
  function Field(v: Option<Json>, key: string): Option<Json> {
    match v
    case Some(Obj(m)) => if key in m then Some(m[key]) else None
    case _ => None
  }
}
