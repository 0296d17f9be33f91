/**
 The key-value namespace the worker keeps links and rate-limit counters in,
 as a map, accessed one request at a time.
 */
module Kv {
  import opened Wrappers

  type Store = map<string, string>

  /** The result of an operation together with the store it leaves behind. */
  datatype Step<T> = Step(out: T, store: Store)

  /** `get(key)`: the stored string, or None (null) when the key is absent. */
  function Get(store: Store, key: string): Option<string>
  {
    if key in store then Some(store[key]) else None
  }

  /** `after` differs from `before` only at `keys`, and loses no key. */
  predicate ChangesOnly(before: Store, after: Store, keys: set<string>)
  {
    && before.Keys <= after.Keys
    && forall k :: k in after && (k !in before || after[k] != before[k]) ==> k in keys
  }

  lemma ChangesOnlyCompose(a: Store, b: Store, c: Store, k1: set<string>, k2: set<string>)
    requires ChangesOnly(a, b, k1) && ChangesOnly(b, c, k2)
    ensures ChangesOnly(a, c, k1 + k2)
  {
    forall k | k in c && (k !in a || c[k] != a[k])
      ensures k in k1 + k2
    {
      if k !in k2 {
        assert k in b && b[k] == c[k];
      }
    }
  }

  /** JavaScript truthiness of a `get` result: null and "" are both falsy. */
  predicate Truthy(v: Option<string>)
  {
    v.Some? && v.value != ""
  }
}
