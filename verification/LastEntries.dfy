/** Dictionaries that a sequence of assignments leaves behind: each key holds the value assigned last. */
module LastEntries {

  /** One assignment: m[key] = value */
  datatype Entry<K, V> = Entry(key: K, value: V)

  /** What some assignments leave behind, from nothing. */
  function Latest<K, V>(entries: seq<Entry<K, V>>): map<K, V> {
    if entries == [] then map[]
    else
      var last := entries[|entries| - 1];
      Latest(entries[..|entries| - 1])[last.key := last.value]
  }

  lemma LatestAppend<K, V>(entries: seq<Entry<K, V>>, entry: Entry<K, V>)
    ensures Latest(entries + [entry]) == Latest(entries)[entry.key := entry.value]
  {
    assert (entries + [entry])[..|entries|] == entries;
  }

  /** `i` is the last assignment to its key. */
  ghost predicate SetsLast<K, V>(entries: seq<Entry<K, V>>, i: int) {
    && 0 <= i < |entries|
    && forall j :: i < j < |entries| ==> entries[j].key != entries[i].key
  }

  lemma {:induction false} LatestHoldsLast<K, V>(entries: seq<Entry<K, V>>, i: int)
    requires SetsLast(entries, i)
    ensures entries[i].key in Latest(entries) && Latest(entries)[entries[i].key] == entries[i].value
  {
    var init := entries[..|entries| - 1];
    if i < |init| {
      assert init[i] == entries[i] && entries[|init|].key != entries[i].key;
      assert forall j :: i < j < |init| ==> init[j] == entries[j];
      LatestHoldsLast(init, i);
    }
  }

  lemma {:induction false} LatestIsSet<K, V>(entries: seq<Entry<K, V>>, key: K)
    ensures key in Latest(entries) <==> exists i :: 0 <= i < |entries| && entries[i].key == key
  {
    if entries != [] {
      var init, last := entries[..|entries| - 1], entries[|entries| - 1];
      LatestIsSet(init, key);
      if i :| 0 <= i < |init| && init[i].key == key { assert entries[i].key == key; }
      if i :| 0 <= i < |entries| && entries[i].key == key {
        if i < |init| { assert init[i].key == key; }
      }
    }
  }

  /** Latest is what its name says: exactly the keys assigned, each with the value assigned last. */
  lemma LatestIsLast<K, V>(entries: seq<Entry<K, V>>)
    ensures forall i :: SetsLast(entries, i) ==>
              entries[i].key in Latest(entries) && Latest(entries)[entries[i].key] == entries[i].value
    ensures forall k :: k in Latest(entries) <==> exists i :: 0 <= i < |entries| && entries[i].key == k
  {
    forall i | SetsLast(entries, i)
      ensures entries[i].key in Latest(entries) && Latest(entries)[entries[i].key] == entries[i].value
    {
      LatestHoldsLast(entries, i);
    }
    forall k ensures k in Latest(entries) <==> exists i :: 0 <= i < |entries| && entries[i].key == k {
      LatestIsSet(entries, k);
    }
  }
}
