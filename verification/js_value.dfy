/** Parsed JavaScript values (what `JSON.parse` yields and what `any`-typed
    parameters carry), with truthiness and property reads. */
module JsValue {
  import opened Wrappers

  /** A JavaScript value. Numbers are modelled as integers; an object is the
      sequence of its own enumerable entries in `Object.entries` order. */
  datatype Json =
    | Null
    | Undefined
    | Bool(b: bool)
    | Num(n: int)
    | Str(s: string)
    | Arr(items: seq<Json>)
    | Obj(fields: seq<(string, Json)>)

  /** The error a property read on `null` or `undefined` throws. */
  datatype JsError = TypeError

  predicate IsNullish(v: Json) { v.Null? || v.Undefined? }

  /** `!!v`. */
  predicate Truthy(v: Json)
  {
    match v
    case Null => false
    case Undefined => false
    case Bool(b) => b
    case Num(n) => n != 0
    case Str(s) => s != ""
    case Arr(_) => true
    case Obj(_) => true
  }

  /** The value stored under key among an object's entries, or `undefined`. */
  function Lookup(fields: seq<(string, Json)>, key: string): (r: Json)
  {
    if fields == [] then Undefined
    else if fields[0].0 == key then fields[0].1
    else Lookup(fields[1..], key)
  }

  /** The property read `v[key]` for a key that no built-in prototype defines:
      it throws on `null`/`undefined` and gives `undefined` on other primitives
      and on arrays. */
  function Get(v: Json, key: string): (r: Result<Json, JsError>)
    ensures r.Err? <==> IsNullish(v)
    ensures r.Ok? && v.Obj? ==> r.value == Lookup(v.fields, key)
    ensures r.Ok? && !v.Obj? ==> r.value == Undefined
  {
    match v
    case Null => Err(TypeError)
    case Undefined => Err(TypeError)
    case Obj(fields) => Ok(Lookup(fields, key))
    case _ => Ok(Undefined)
  }

  /** `!!v[key]`, for a value known not to be nullish. */
  predicate HasTruthy(v: Json, key: string)
  {
    v.Obj? && Truthy(Lookup(v.fields, key))
  }

  /** The first entry with the key decides the read. */
  lemma {:induction false} LookupAt(fields: seq<(string, Json)>, key: string, k: nat)
    requires k < |fields| && fields[k].0 == key
    requires forall j :: 0 <= j < k ==> fields[j].0 != key
    ensures Lookup(fields, key) == fields[k].1
  {
    if k > 0 {
      LookupAt(fields[1..], key, k - 1);
    }
  }
}
