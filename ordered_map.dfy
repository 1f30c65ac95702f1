/**
 * An insertion-ordered hash map, as `OrderedHashMap` is used by the expander: a sequence
 * of (key, value) entries in insertion order, where `Insert` is `entry(k).or_insert(v)`:
 * a key already present keeps its value and its position, a new key goes at the end.
 */
module OrderedMaps {
  import opened Wrappers

  datatype OrderedHashMap<K, V> = OrderedHashMap(entries: seq<(K, V)>)

  function Empty<K, V>(): OrderedHashMap<K, V> {
    OrderedHashMap([])
  }

  /** The value of the first entry with key `k`, if any. */
  function Lookup<K(==), V>(entries: seq<(K, V)>, k: K): Option<V> {
    if entries == [] then None
    else if entries[0].0 == k then Some(entries[0].1)
    else Lookup(entries[1..], k)
  }

  /** `Lookup` finds the first entry with the key, and nothing when no entry has it. */
  lemma {:induction false} LookupFindsFirst<K, V>(entries: seq<(K, V)>, k: K)
    ensures Lookup(entries, k).None? <==> forall i :: 0 <= i < |entries| ==> entries[i].0 != k
    ensures Lookup(entries, k).Some? ==>
              exists i :: 0 <= i < |entries| && entries[i] == (k, Lookup(entries, k).value)
                          && forall j :: 0 <= j < i ==> entries[j].0 != k
  {
    if entries != [] && entries[0].0 != k {
      LookupFindsFirst(entries[1..], k);
      assert forall j :: 1 <= j < |entries| ==> entries[j] == entries[1..][j - 1];
      if Lookup(entries, k).Some? {
        var i :| 0 <= i < |entries[1..]| && entries[1..][i] == (k, Lookup(entries, k).value)
                 && forall j :: 0 <= j < i ==> entries[1..][j].0 != k;
        assert entries[i + 1] == (k, Lookup(entries, k).value);
      }
    }
  }

  /** No key occurs twice. */
  ghost predicate UniqueKeys<K, V>(m: OrderedHashMap<K, V>) {
    forall i, j :: 0 <= i < j < |m.entries| ==> m.entries[i].0 != m.entries[j].0
  }

  /** The values in insertion order, as `values()` iterates them. */
  function Values<K, V>(m: OrderedHashMap<K, V>): (vs: seq<V>)
    ensures |vs| == |m.entries| && forall i :: 0 <= i < |vs| ==> vs[i] == m.entries[i].1
    decreases |m.entries|
  {
    if m.entries == [] then []
    else
      var init := OrderedHashMap(m.entries[..|m.entries| - 1]);
      Values(init) + [m.entries[|m.entries| - 1].1]
  }

  /** `entry(k).or_insert(v)`. */
  function Insert<K(==), V>(m: OrderedHashMap<K, V>, k: K, v: V): OrderedHashMap<K, V> {
    if Lookup(m.entries, k).Some? then m else OrderedHashMap(m.entries + [(k, v)])
  }

  /** Inserting every pair of `ps`, in order. */
  function InsertAll<K(==), V>(m: OrderedHashMap<K, V>, ps: seq<(K, V)>): OrderedHashMap<K, V> {
    if ps == [] then m
    else Insert(InsertAll(m, ps[..|ps| - 1]), ps[|ps| - 1].0, ps[|ps| - 1].1)
  }

  lemma {:induction false} LookupAppend<K, V>(ps: seq<(K, V)>, qs: seq<(K, V)>, k: K)
    ensures Lookup(ps + qs, k) == if Lookup(ps, k).Some? then Lookup(ps, k) else Lookup(qs, k)
  {
    if ps == [] {
      assert ps + qs == qs;
    } else {
      assert (ps + qs)[0] == ps[0];
      assert (ps + qs)[1..] == ps[1..] + qs;
      LookupAppend(ps[1..], qs, k);
    }
  }

  /** First insertion wins: after `Insert`, every key reads as in the old entries followed by `(k, v)`. */
  lemma InsertLookup<K, V>(m: OrderedHashMap<K, V>, k: K, v: V, key: K)
    ensures Lookup(Insert(m, k, v).entries, key) == Lookup(m.entries + [(k, v)], key)
  {
    LookupAppend(m.entries, [(k, v)], key);
    if Lookup(m.entries, k).Some? && key == k {
      assert Lookup([(k, v)], key) == Some(v);
    }
  }

  /** `Insert` never removes, moves or rewrites an entry, and adds at most one at the end. */
  lemma InsertExtends<K, V>(m: OrderedHashMap<K, V>, k: K, v: V)
    ensures m.entries <= Insert(m, k, v).entries
    ensures Lookup(m.entries, k).Some? ==> Insert(m, k, v) == m
    ensures Lookup(m.entries, k).None? ==> Insert(m, k, v).entries == m.entries + [(k, v)]
  {
  }

  lemma InsertKeepsUniqueKeys<K, V>(m: OrderedHashMap<K, V>, k: K, v: V)
    requires UniqueKeys(m)
    ensures UniqueKeys(Insert(m, k, v))
  {
    LookupFindsFirst(m.entries, k);
  }

  lemma InsertAllSingle<K, V>(m: OrderedHashMap<K, V>, p: (K, V))
    ensures InsertAll(m, [p]) == Insert(m, p.0, p.1)
  {
    assert [p][..0] == [];
  }

  /** Inserting a sequence of pairs reads as a first-match lookup over the old entries followed by the pairs. */
  lemma {:induction false} InsertAllLookup<K, V>(m: OrderedHashMap<K, V>, ps: seq<(K, V)>, key: K)
    ensures Lookup(InsertAll(m, ps).entries, key) == Lookup(m.entries + ps, key)
  {
    if ps == [] {
      assert m.entries + ps == m.entries;
    } else {
      var init, last := ps[..|ps| - 1], ps[|ps| - 1];
      var before := InsertAll(m, init);
      assert InsertAll(m, ps) == Insert(before, last.0, last.1);
      assert m.entries + ps == (m.entries + init) + [last];
      calc {
        Lookup(InsertAll(m, ps).entries, key);
        { InsertLookup(before, last.0, last.1, key); }
        Lookup(before.entries + [last], key);
        { LookupAppend(before.entries, [last], key); }
        if Lookup(before.entries, key).Some? then Lookup(before.entries, key) else Lookup([last], key);
        { InsertAllLookup(m, init, key); }
        if Lookup(m.entries + init, key).Some? then Lookup(m.entries + init, key) else Lookup([last], key);
        { LookupAppend(m.entries + init, [last], key); }
        Lookup((m.entries + init) + [last], key);
      }
    }
  }

  lemma {:induction false} InsertAllKeepsUniqueKeys<K, V>(m: OrderedHashMap<K, V>, ps: seq<(K, V)>)
    requires UniqueKeys(m)
    ensures UniqueKeys(InsertAll(m, ps))
  {
    if ps != [] {
      InsertAllKeepsUniqueKeys(m, ps[..|ps| - 1]);
      InsertKeepsUniqueKeys(InsertAll(m, ps[..|ps| - 1]), ps[|ps| - 1].0, ps[|ps| - 1].1);
    }
  }

  /** Existing entries keep their position and value; new keys are added after them. */
  lemma {:induction false} InsertAllExtends<K, V>(m: OrderedHashMap<K, V>, ps: seq<(K, V)>)
    ensures m.entries <= InsertAll(m, ps).entries
    ensures |InsertAll(m, ps).entries| <= |m.entries| + |ps|
  {
    if ps != [] {
      InsertAllExtends(m, ps[..|ps| - 1]);
      InsertExtends(InsertAll(m, ps[..|ps| - 1]), ps[|ps| - 1].0, ps[|ps| - 1].1);
    }
  }

  lemma {:induction false} InsertAllAppend<K, V>(m: OrderedHashMap<K, V>, ps: seq<(K, V)>, qs: seq<(K, V)>)
    ensures InsertAll(m, ps + qs) == InsertAll(InsertAll(m, ps), qs)
  {
    if qs == [] {
      assert ps + qs == ps;
    } else {
      assert (ps + qs)[..|ps + qs| - 1] == ps + qs[..|qs| - 1];
      InsertAllAppend(m, ps, qs[..|qs| - 1]);
    }
  }
}
