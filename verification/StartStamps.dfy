/** Tables that remember when something started, until it finishes: a new start
    replaces one that never finished, and finishing takes the entry out. */
module StartStamps {
  import opened Machine

  datatype Stamp<K, V> = Start(key: K, value: V) | Finish(key: K) | Forget(key: K) | Nothing

  function Apply<K, V>(t: map<K, V>, e: Stamp<K, V>): map<K, V> {
    match e
    case Start(key, value) => t[key := value]
    case Finish(key) => t - {key}
    case Forget(key) => t - {key}
    case Nothing => t
  }

  ghost function TableAfter<K, V>(es: seq<Stamp<K, V>>): map<K, V> {
    if es == [] then map[]
    else
      var n := |es| - 1;
      Apply(TableAfter(es[..n]), es[n])
  }

  ghost predicate Touches<K, V>(e: Stamp<K, V>, key: K) { !e.Nothing? && e.key == key }

  /** Event `b` is the start of `key` that is in force before event `n`. */
  ghost predicate InForce<K, V>(es: seq<Stamp<K, V>>, b: int, n: int, key: K) {
    && 0 <= b < n <= |es| && es[b].Start? && es[b].key == key
    && forall j :: b < j < n ==> !Touches(es[j], key)
  }

  /** An entry is the value of the start in force, and there is one exactly if one
      is in force. */
  lemma {:induction false} StoredIff<K, V>(es: seq<Stamp<K, V>>, n: nat, key: K, value: V)
    requires n <= |es|
    ensures Lookup(TableAfter(es[..n]), key) == Some(value)
            <==> exists b :: InForce(es, b, n, key) && es[b].value == value
    decreases n
  {
    if n > 0 {
      assert es[..n][..n - 1] == es[..n - 1];
      StoredIff(es, n - 1, key, value);
      if Touches(es[n - 1], key) {
        if es[n - 1].Start? { assert InForce(es, n - 1, n, key); }
      } else {
        assert forall b :: InForce(es, b, n, key) <==> InForce(es, b, n - 1, key);
      }
    }
  }

  /** One start is in force at most, and it serves one finish at most. */
  lemma StartsPairOnce<K, V>(es: seq<Stamp<K, V>>, b: nat, m: nat, b': nat, n: nat, key: K)
    requires InForce(es, b, m, key) && InForce(es, b', n, key)
    requires m < |es| && n < |es| && es[m] == Finish(key) && es[n] == Finish(key)
    ensures b == b' <==> m == n
  {
    assert Touches(es[m], key) && Touches(es[n], key) && Touches(es[b], key) && Touches(es[b'], key);
  }
}
