/** JavaScript values as the stock and token code of js/api.js sees them.
    Only two things about a value ever matter there: whether it is truthy,
    and, for an object, its own properties. */
module Values {

  datatype Option<+T> = None | Some(value: T)

  /** A JSON value met by the stock code: either some falsy value (null,
      undefined, false, 0 or '') or an object given by its own properties.
      Stock records, variant maps and the ledger itself are all objects. */
  datatype Value = Falsy | Obj(fields: map<string, Value>)

  /** `if (v)` on a value. */
  predicate Truthy(v: Value) {
    v.Obj?
  }

  /** `if (s)` on an optional string: both a missing string and '' are falsy. */
  predicate IsSet(s: Option<string>) {
    s.Some? && s.value != ""
  }

  /** Property read `m[k]`: a property the object does not have reads as undefined. */
  function Get(m: map<string, Value>, k: string): (v: Value)
    ensures k in m ==> v == m[k]
    ensures Truthy(v) ==> k in m
    ensures k !in m ==> !Truthy(v)
  {
    if k in m then m[k] else Falsy
  }

  /** Object spread `{ ...v }`: a shallow copy of an object, and an empty
      object when `v` is falsy. With values instead of references a shallow
      copy of an object is equal to it. */
  function Spread(v: Value): (r: Value)
    ensures Truthy(r)
    ensures Truthy(v) ==> r == v
    ensures !Truthy(v) ==> r.fields == map[]
  {
    match v
    case Obj(fields) => Obj(fields)
    case Falsy => Obj(map[])
  }
}
