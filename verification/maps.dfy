/**
 * Memoising map lookup: `get_or_insert` returns the value cached under a key
 * and only when the key is absent asks a producer for one, caching it on
 * success. The producer's asynchronous evaluation is collapsed into the
 * `Result` it finally yields.
 */
module Maps {
  import opened Wrappers

  /**
   * Everything one call of `GetOrInsert` does: the value (or producer error)
   * it returns, the map as it is afterwards, and the key the producer was
   * called with (`None` when the producer was not called at all).
   */
  datatype Lookup<K, V, E> = Lookup(result: Result<V, E>, after: map<K, V>, producedFor: Option<K>)

  /** The map only changes at `key`: no other key is added, removed or rebound. */
  ghost predicate AgreeOutside<K, V>(m: map<K, V>, m': map<K, V>, key: K)
  {
    && m.Keys - {key} == m'.Keys - {key}
    && forall k :: k in m && k in m' && k != key ==> m'[k] == m[k]
  }

  function GetOrInsert<K, V, E>(m: map<K, V>, key: K, produce: K -> Result<V, E>): (r: Lookup<K, V, E>)
    // present: the cached value, the producer is not called, the map is unchanged
    ensures key in m ==> r == Lookup(Ok(m[key]), m, None)
    // absent: the producer is called exactly with the key being looked up
    ensures key !in m <==> r.producedFor == Some(key)
    ensures key !in m ==> r.result == produce(key)
    // absent and produced: the value is cached under the key
    ensures key !in m && produce(key).Ok? ==> r.after == m[key := produce(key).value]
    // absent and failed: the error escapes before anything is inserted
    ensures r.result.Err? ==> key !in m && r.after == m
    // every success is backed by the map
    ensures r.result.Ok? <==> key in r.after
    ensures r.result.Ok? ==> r.after[key] == r.result.value
    ensures AgreeOutside(m, r.after, key)
  {
    if key in m then
      Lookup(Ok(m[key]), m, None)
    else
      match produce(key)
      case Err(e) => Lookup(Err(e), m, Some(key))
      case Ok(v) => Lookup(Ok(v), m[key := v], Some(key))
  }

  /** A second call with the same key after a successful one hits the cache. */
  lemma GetOrInsertIdempotent<K, V, E>(m: map<K, V>, key: K, produce: K -> Result<V, E>, produce': K -> Result<V, E>)
    requires GetOrInsert(m, key, produce).result.Ok?
    ensures var first := GetOrInsert(m, key, produce);
            var second := GetOrInsert(first.after, key, produce');
            && second.result == first.result
            && second.after == first.after
            && second.producedFor == None
  {
  }

  /** Whatever the producer does, the outcome never loses or rebinds a key already in the map. */
  lemma GetOrInsertKeepsCache<K, V, E>(m: map<K, V>, key: K, produce: K -> Result<V, E>)
    ensures var r := GetOrInsert(m, key, produce);
            && m.Keys <= r.after.Keys
            && forall k :: k in m ==> r.after[k] == m[k]
  {
  }
}
