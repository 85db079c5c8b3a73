/** Option, Result and the nil-able string maps of Kubernetes object metadata. */
module Prelude {

  datatype Option<+T> = None | Some(value: T)

  datatype Result<+T, +E> = Ok(value: T) | Err(error: E)

  /** A Go `map[string]string` that may be nil. */
  type StringMap = Option<map<string, string>>

  /** Go map read: a nil map reads like an empty one. */
  function Get(m: StringMap, k: string): Option<string> {
    if m.Some? && k in m.value then Some(m.value[k]) else None
  }

  /** Go map write after the `if m == nil { m = make(...) }` idiom. */
  function Put(m: StringMap, k: string, v: string): StringMap {
    if m.Some? then Some(m.value[k := v]) else Some(map[k := v])
  }

  function OrElse<T>(o: Option<T>, default: Option<T>): Option<T> {
    if o.Some? then o else default
  }

  /** A nil-able map is determined by its reads and by whether it is nil. */
  lemma SameReadsSameMap(a: StringMap, b: StringMap)
    requires a.Some? == b.Some?
    requires forall k :: Get(a, k) == Get(b, k)
    ensures a == b
  {
    if a.Some? {
      forall k ensures k in a.value <==> k in b.value {
        assert Get(a, k) == Get(b, k);
      }
      assert a.value.Keys == b.value.Keys;
      forall k | k in a.value ensures a.value[k] == b.value[k] {
        assert Get(a, k) == Get(b, k);
      }
      assert a.value == b.value;
    }
  }
}
