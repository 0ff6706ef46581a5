/** An insertion-ordered map, as JavaScript's `Map` keeps one: slots with distinct keys, the first inserted first. */
module InsertionMap {
  import opened Options

  datatype Slot<K, V> = Slot(key: K, held: V)

  function IndexOf<K(==), V>(slots: seq<Slot<K, V>>, key: K): (i: nat)
    ensures i <= |slots|
    ensures i < |slots| ==> slots[i].key == key
    ensures forall j | 0 <= j < i :: slots[j].key != key
  {
    if slots == [] || slots[0].key == key then 0 else 1 + IndexOf(slots[1..], key)
  }

  predicate Has<K(==), V>(slots: seq<Slot<K, V>>, key: K) { IndexOf(slots, key) < |slots| }

  /** `get`. */
  function HeldAt<K(==), V>(slots: seq<Slot<K, V>>, key: K): Option<V> {
    if Has(slots, key) then Some(slots[IndexOf(slots, key)].held) else None
  }

  predicate DistinctKeys<K(==), V>(slots: seq<Slot<K, V>>) {
    forall i, j | 0 <= i < j < |slots| :: slots[i].key != slots[j].key
  }

  /** `delete`. */
  function Without<K(==), V>(slots: seq<Slot<K, V>>, key: K): seq<Slot<K, V>> {
    var i := IndexOf(slots, key);
    if i < |slots| then slots[..i] + slots[i + 1..] else slots
  }

  /** `set`: a key already there keeps its place. */
  function Put<K(==), V>(slots: seq<Slot<K, V>>, key: K, value: V): seq<Slot<K, V>> {
    var i := IndexOf(slots, key);
    if i < |slots| then slots[i := Slot(key, value)] else slots + [Slot(key, value)]
  }

  lemma {:induction false} PutKeys<K, V>(slots: seq<Slot<K, V>>, key: K, value: V)
    requires DistinctKeys(slots)
    ensures DistinctKeys(Put(slots, key, value)) && Has(Put(slots, key, value), key)
    ensures forall other | Has(slots, other) :: Has(Put(slots, key, value), other)
  {
    var after := Put(slots, key, value);
    forall other | Has(slots, other) ensures Has(after, other) { assert after[IndexOf(slots, other)].key == other; }
    if !Has(slots, key) { assert after[|slots|].key == key; }
  }

  lemma {:induction false} WithoutKeys<K, V>(slots: seq<Slot<K, V>>, key: K)
    requires DistinctKeys(slots)
    ensures DistinctKeys(Without(slots, key)) && !Has(Without(slots, key), key)
    ensures forall e :: e in Without(slots, key) <==> e in slots && e.key != key
  {
    var i := IndexOf(slots, key);
    var rest := Without(slots, key);
    if i < |slots| {
      forall e | e in slots && e.key != key ensures e in rest {
        var j :| 0 <= j < |slots| && slots[j] == e;
        assert e == rest[if j < i then j else j - 1];
      }
    }
    forall k | 0 <= k < |rest| ensures rest[k].key != key { assert rest[k] in rest; }
  }

  /** Deleting a key keeps the others in their order. */
  lemma {:induction false} WithoutAt<K, V>(slots: seq<Slot<K, V>>, key: K, i: nat) returns (i': nat)
    requires i < |Without(slots, key)|
    ensures i' < |slots| && Without(slots, key)[i] == slots[i']
    ensures i' == if i < IndexOf(slots, key) then i else i + 1
  {
    i' := if i < IndexOf(slots, key) then i else i + 1;
  }

  /** Inserting a new key puts it last. */
  lemma {:induction false} Appended<K, V>(rest: seq<Slot<K, V>>, e: Slot<K, V>)
    requires DistinctKeys(rest) && forall o | o in rest :: o.key != e.key
    ensures DistinctKeys(rest + [e])
  {
    forall i | 0 <= i < |rest| ensures rest[i].key != e.key { assert rest[i] in rest; }
  }
}
