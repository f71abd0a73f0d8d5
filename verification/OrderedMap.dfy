/** The Map of ECMAScript: keys keep the order in which they were first set. */
module OrderedMap {
  import opened FiniteSets

  datatype OrderedMap<K(==), V> = OrderedMap(keys: seq<K>, vals: map<K, V>) {

    ghost predicate Valid() {
      && (forall k :: k in keys ==> k in vals)
      && (forall k :: k in vals ==> k in keys)
      && NoRepeats(keys)
    }

    /** A new key goes to the end; a known key keeps its place. */
    function Set(k: K, v: V): (r: OrderedMap<K, V>)
      requires Valid()
      ensures r.Valid() && r.vals == vals[k := v]
      ensures |r.keys| == if k in vals then |keys| else |keys| + 1
      ensures k in vals ==> r.keys == keys
    {
      if k in vals then OrderedMap(keys, vals[k := v]) else OrderedMap(keys + [k], vals[k := v])
    }

    function Delete(k: K): (r: OrderedMap<K, V>)
      requires Valid()
      ensures r.Valid() && r.vals == vals - {k}
      ensures |r.keys| == if k in vals then |keys| - 1 else |keys|
    {
      RemoveKeeps(keys, k);
      OrderedMap(Remove(keys, k), vals - {k})
    }
  }

  function Empty<K(==), V>(): (r: OrderedMap<K, V>)
    ensures r.Valid() && r.vals == map[] && r.keys == []
  {
    OrderedMap([], map[])
  }

  /** The keys without k. */
  function Remove<K(==)>(keys: seq<K>, k: K): seq<K> {
    if keys == [] then []
    else if keys[0] == k then keys[1..]
    else [keys[0]] + Remove(keys[1..], k)
  }

  lemma {:induction false} RemoveMembers<K>(keys: seq<K>, k: K)
    requires NoRepeats(keys)
    ensures forall x :: x in Remove(keys, k) <==> x in keys && x != k
    decreases |keys|
  {
    if keys != [] {
      assert forall x :: x in keys <==> x == keys[0] || x in keys[1..];
      assert keys[0] !in keys[1..];
      if keys[0] != k {
        RemoveMembers(keys[1..], k);
      }
    }
  }

  lemma {:induction false} RemoveDistinct<K>(keys: seq<K>, k: K)
    requires NoRepeats(keys)
    ensures NoRepeats(Remove(keys, k)) && |Remove(keys, k)| == if k in keys then |keys| - 1 else |keys|
    decreases |keys|
  {
    if keys != [] && keys[0] != k {
      RemoveDistinct(keys[1..], k);
      RemoveMembers(keys[1..], k);
      assert keys[0] !in Remove(keys[1..], k);
      assert k in keys <==> k in keys[1..];
    }
  }

  lemma RemoveKeeps<K>(keys: seq<K>, k: K)
    requires NoRepeats(keys)
    ensures var r := Remove(keys, k);
      && NoRepeats(r) && |r| == (if k in keys then |keys| - 1 else |keys|)
      && (forall x :: x in r ==> x in keys && x != k)
      && (forall x :: x in keys && x != k ==> x in r)
  {
    RemoveMembers(keys, k);
    RemoveDistinct(keys, k);
  }

  /** The keys are in the order of the given times. */
  ghost predicate InOrder<K>(keys: seq<K>, time: K -> int) {
    forall i, j :: 0 <= i < j < |keys| ==> time(keys[i]) < time(keys[j])
  }

  lemma {:induction false} RemoveStaysAfter<K>(keys: seq<K>, k: K, time: K -> int, bound: int)
    requires forall i :: 0 <= i < |keys| ==> bound < time(keys[i])
    ensures forall i :: 0 <= i < |Remove(keys, k)| ==> bound < time(Remove(keys, k)[i])
    decreases |keys|
  {
    if keys != [] && keys[0] != k {
      RemoveStaysAfter(keys[1..], k, time, bound);
    }
  }

  lemma {:induction false} RemoveInOrder<K>(keys: seq<K>, k: K, time: K -> int)
    requires InOrder(keys, time)
    ensures InOrder(Remove(keys, k), time)
    decreases |keys|
  {
    if keys != [] && keys[0] != k {
      RemoveInOrder(keys[1..], k, time);
      RemoveStaysAfter(keys[1..], k, time, time(keys[0]));
    }
  }
}
