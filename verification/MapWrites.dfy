/** Writing a list of entries into a dictionary, one after another. */
module MapWrites {

  function Assign<K, V>(m: map<K, V>, entries: seq<(K, V)>): map<K, V> {
    if entries == [] then m
    else
      var last := entries[|entries| - 1];
      Assign(m, entries[..|entries| - 1])[last.0 := last.1]
  }

  /** The place of the last entry for a key, or -1. */
  function LastAt<K(==), V>(entries: seq<(K, V)>, key: K): (i: int)
    ensures -1 <= i < |entries|
    ensures i >= 0 ==> entries[i].0 == key
    ensures forall j :: i < j < |entries| ==> entries[j].0 != key
  {
    if entries == [] then -1
    else if entries[|entries| - 1].0 == key then |entries| - 1
    else LastAt(entries[..|entries| - 1], key)
  }

  /** The last entry for a key decides; a key without an entry is as before. */
  lemma {:induction false} AssignMeans<K, V>(m: map<K, V>, entries: seq<(K, V)>, key: K)
    ensures var after, i := Assign(m, entries), LastAt(entries, key);
            if i >= 0 then key in after && after[key] == entries[i].1
            else (key in after <==> key in m) && (key in m ==> after[key] == m[key])
  {
    if entries != [] { AssignMeans(m, entries[..|entries| - 1], key); }
  }

  lemma {:induction false} AssignAppend<K, V>(m: map<K, V>, a: seq<(K, V)>, b: seq<(K, V)>)
    ensures Assign(m, a + b) == Assign(Assign(m, a), b)
  {
    if b == [] {
      assert a + b == a;
    } else {
      AssignAppend(m, a, b[..|b| - 1]);
      assert (a + b)[..|a + b| - 1] == a + b[..|b| - 1];
    }
  }

  /** Having written a part already makes no difference to writing the whole. */
  lemma AssignAbsorbs<K(!new), V>(m: map<K, V>, part: seq<(K, V)>, entries: seq<(K, V)>)
    requires part <= entries
    ensures Assign(Assign(m, part), entries) == Assign(m, entries)
  {
    var once, twice := Assign(m, entries), Assign(Assign(m, part), entries);
    forall key ensures (key in twice <==> key in once) && (key in once ==> twice[key] == once[key]) {
      AssignMeans(m, part, key);
      AssignMeans(m, entries, key);
      AssignMeans(Assign(m, part), entries, key);
      if LastAt(part, key) >= 0 { assert entries[LastAt(part, key)].0 == key; }
    }
    assert twice == once;
  }
}
