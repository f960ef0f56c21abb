/** Shared value types: the plain JavaScript values that the client state holds. */
module Wrappers {

  datatype Option<+T> = None | Some(value: T)
}

/**
 * A JavaScript value as it appears in the Redux state: primitives and plain
 * objects. Objects are compared structurally, as the tests' deep equality
 * compares them.
 */
module Json {

  datatype Value =
    | Null
    | Bool(b: bool)
    | Int(i: int)
    | Str(s: string)
    | Obj(fields: map<string, Value>)

  /** A plain object: an idea, a user, a presence, an attribute bag. */
  type Record = map<string, Value>

  /** `{ ...base, ...overrides }`: the right-biased shallow merge of object spread. */
  function Merge(base: Record, overrides: Record): (r: Record)
    ensures r.Keys == base.Keys + overrides.Keys
    ensures forall k :: k in overrides ==> r[k] == overrides[k]
    ensures forall k :: k in base && k !in overrides ==> r[k] == base[k]
  {
    base + overrides
  }

  /** The object without the field `key` (a rest-destructuring that drops one key). */
  function Omit(r: Record, key: string): (s: Record)
    ensures s.Keys == r.Keys - {key}
    ensures forall k :: k in s ==> s[k] == r[k]
  {
    r - {key}
  }

  /** `record.id === id`: the record carries an `id` field equal to `id`. */
  predicate HasId(r: Record, id: Value)
  {
    "id" in r && r["id"] == id
  }

  /** A user record whose `id` is an integer, the key it is filed under. */
  predicate HasIntId(r: Record)
  {
    "id" in r && r["id"].Int?
  }

  function IntId(r: Record): int
    requires HasIntId(r)
  {
    r["id"].i
  }
}
