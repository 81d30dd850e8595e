/** The JavaScript `Map`: a finite map that remembers the order in which its keys were inserted. */
module OrderedMaps {
  import opened Options
  import opened Sequences

  datatype OMap<!K(==), V> = OMap(order: seq<K>, at: map<K, V>) {

    ghost predicate Valid() {
      && NoDup(order)
      && (forall k :: k in order ==> k in at)
      && (forall k :: k in at ==> k in order)
    }

    function Get(k: K): Option<V> {
      if k in at then Some(at[k]) else None
    }
  }

  function Empty<K(==), V>(): OMap<K, V> {
    OMap([], map[])
  }

  function OtherThan<K(==)>(k: K): K -> bool {
    (x: K) => x != k
  }

  /** `map.delete(k)` */
  function Delete<K(==), V>(m: OMap<K, V>, k: K): OMap<K, V> {
    OMap(Filter(m.order, OtherThan(k)), m.at - {k})
  }

  /** `map.set(k, v)`: a known key keeps its place, a new one goes last. */
  function Put<K(==), V>(m: OMap<K, V>, k: K, v: V): OMap<K, V> {
    OMap(if k in m.at then m.order else m.order + [k], m.at[k := v])
  }

  /** `Array.from(map.keys()).at(-1)` */
  function LastKey<K(==), V>(m: OMap<K, V>): Option<K> {
    if m.order == [] then None else Some(Last(m.order))
  }

  lemma DeleteValid<K, V>(m: OMap<K, V>, k: K)
    requires m.Valid()
    ensures Delete(m, k).Valid()
    ensures k !in Delete(m, k).order
  {
    FilterNoDup(m.order, OtherThan(k));
    FilterMembers(m.order, OtherThan(k));
  }

  /** Deleting any key but the last leaves the last where it is. */
  lemma DeleteKeepsLast<K, V>(m: OMap<K, V>, k: K)
    requires m.Valid() && m.order != [] && Last(m.order) != k
    ensures Delete(m, k).order != [] && Last(Delete(m, k).order) == Last(m.order)
  {
  }
}
