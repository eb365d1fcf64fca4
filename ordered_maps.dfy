/** Insertion-ordered string-keyed maps: a JavaScript object's own
    properties or a `Map`, as the list of its entries in enumeration order.
    Setting a new key appends it; setting an existing key keeps its place. */
module OrderedMaps {
  import opened Common

  /** `Object.keys`: the keys, in order. */
  function Keys<V>(entries: seq<(string, V)>): (r: seq<string>)
    ensures |r| == |entries| && forall i :: 0 <= i < |r| ==> r[i] == entries[i].0
  {
    seq(|entries|, i requires 0 <= i < |entries| => entries[i].0)
  }

  predicate DistinctKeys<V>(entries: seq<(string, V)>) {
    forall i, j :: 0 <= i < j < |entries| ==> entries[i].0 != entries[j].0
  }

  lemma KeysOfCons<V>(entries: seq<(string, V)>)
    requires entries != []
    ensures Keys(entries) == [entries[0].0] + Keys(entries[1..])
  {
  }

  /** Property lookup: the value of the first entry with that key. */
  function Lookup<V>(entries: seq<(string, V)>, key: string): (r: Option<V>)
    ensures r.Some? <==> key in Keys(entries)
    ensures r.Some? ==> (key, r.value) in entries
  {
    if entries == [] then None
    else if entries[0].0 == key then Some(entries[0].1)
    else
      var r := Lookup(entries[1..], key);
      assert forall i :: 0 < i < |entries| ==> entries[i] == entries[1..][i - 1];
      KeysOfCons(entries);
      r
  }

  /** With distinct keys, looking up an entry's key finds that entry. */
  lemma {:induction false} LookupFindsEach<V>(entries: seq<(string, V)>, i: int)
    requires DistinctKeys(entries) && 0 <= i < |entries|
    ensures Lookup(entries, entries[i].0) == Some(entries[i].1)
  {
    if i > 0 {
      assert entries[0].0 != entries[i].0;
      assert entries[1..][i - 1] == entries[i];
      assert DistinctKeys(entries[1..]) by {
        forall a, b | 0 <= a < b < |entries| - 1
          ensures entries[1..][a].0 != entries[1..][b].0
        {
          assert entries[1..][a] == entries[a + 1] && entries[1..][b] == entries[b + 1];
        }
      }
      LookupFindsEach(entries[1..], i - 1);
    }
  }

  /** `obj[key] = value` / `map.set(key, value)`: an existing key keeps its
      place and gets the new value, a new key goes at the end. */
  function Set<V>(entries: seq<(string, V)>, key: string, value: V): (r: seq<(string, V)>)
    ensures |r| == if key in Keys(entries) then |entries| else |entries| + 1
  {
    if entries == [] then [(key, value)]
    else
      KeysOfCons(entries);
      if entries[0].0 == key then [(key, value)] + entries[1..]
      else [entries[0]] + Set(entries[1..], key, value)
  }

  lemma {:induction false} SetKeys<V>(entries: seq<(string, V)>, key: string, value: V)
    ensures Keys(Set(entries, key, value)) == if key in Keys(entries) then Keys(entries) else Keys(entries) + [key]
  {
    if entries != [] {
      var r := Set(entries, key, value);
      KeysOfCons(entries);
      KeysOfCons(r);
      if entries[0].0 != key {
        SetKeys(entries[1..], key, value);
        assert r[1..] == Set(entries[1..], key, value);
      } else {
        assert r[1..] == entries[1..];
      }
    }
  }

  /** After a set, the key has the new value and every other key its old one. */
  lemma {:induction false} SetLookup<V>(entries: seq<(string, V)>, key: string, value: V, k: string)
    ensures Lookup(Set(entries, key, value), k) == if k == key then Some(value) else Lookup(entries, k)
  {
    if entries != [] {
      var r := Set(entries, key, value);
      if entries[0].0 != key {
        SetLookup(entries[1..], key, value, k);
        assert r[1..] == Set(entries[1..], key, value);
      } else {
        assert r[1..] == entries[1..];
      }
    }
  }

  /** `delete obj[key]`: the entry for `key` goes, the others keep their order. */
  function Remove<V>(entries: seq<(string, V)>, key: string): (r: seq<(string, V)>)
    ensures |r| <= |entries|
  {
    if entries == [] then []
    else if entries[0].0 == key then Remove(entries[1..], key)
    else [entries[0]] + Remove(entries[1..], key)
  }

  /** After a delete, the key is gone and every other key has its old value. */
  lemma {:induction false} RemoveLookup<V>(entries: seq<(string, V)>, key: string, k: string)
    ensures Lookup(Remove(entries, key), k) == if k == key then None else Lookup(entries, k)
  {
    if entries != [] {
      var r := Remove(entries, key);
      RemoveLookup(entries[1..], key, k);
      if entries[0].0 != key {
        assert r[1..] == Remove(entries[1..], key);
      }
    }
  }

  /** Deleting a key that is not there changes nothing. */
  lemma {:induction false} RemoveAbsent<V>(entries: seq<(string, V)>, key: string)
    requires key !in Keys(entries)
    ensures Remove(entries, key) == entries
  {
    if entries != [] {
      KeysOfCons(entries);
      RemoveAbsent(entries[1..], key);
    }
  }

  /** Keys that are distinct stay distinct when a key is set. */
  lemma {:induction false} SetKeepsDistinct<V>(entries: seq<(string, V)>, key: string, value: V)
    requires DistinctKeys(entries)
    ensures DistinctKeys(Set(entries, key, value))
  {
    var r := Set(entries, key, value);
    var ks := Keys(r);
    SetKeys(entries, key, value);
    forall a, b | 0 <= a < b < |r|
      ensures r[a].0 != r[b].0
    {
      if key in Keys(entries) {
        assert ks[a] == Keys(entries)[a] == entries[a].0;
        assert ks[b] == Keys(entries)[b] == entries[b].0;
      } else if b < |entries| {
        assert ks[a] == entries[a].0 && ks[b] == entries[b].0;
      } else {
        assert ks[b] == key && ks[a] == entries[a].0;
      }
    }
  }

  /** The entries set one after the other, as a `forEach` over them does. */
  function SetAll<V>(entries: seq<(string, V)>, updates: seq<(string, V)>): seq<(string, V)>
  {
    if updates == [] then entries
    else
      var last := updates[|updates| - 1];
      Set(SetAll(entries, updates[..|updates| - 1]), last.0, last.1)
  }

  /** After setting distinct-keyed updates one after the other, each
      updated key has its update's value. */
  lemma {:induction false} SetAllFindsEach<V>(entries: seq<(string, V)>, updates: seq<(string, V)>, i: int)
    requires DistinctKeys(updates) && 0 <= i < |updates|
    ensures Lookup(SetAll(entries, updates), updates[i].0) == Some(updates[i].1)
  {
    var n := |updates| - 1;
    if i < n {
      var init := updates[..n];
      assert init[i] == updates[i];
      assert DistinctKeys(init) by {
        forall a, b | 0 <= a < b < n
          ensures init[a].0 != init[b].0
        {
          assert init[a] == updates[a] && init[b] == updates[b];
        }
      }
      SetAllFindsEach(entries, init, i);
      assert updates[n].0 != updates[i].0;
      SetLookup(SetAll(entries, init), updates[n].0, updates[n].1, updates[i].0);
    } else {
      SetLookup(SetAll(entries, updates[..n]), updates[n].0, updates[n].1, updates[i].0);
    }
  }

  /** A key no update names keeps its value. */
  lemma {:induction false} SetAllKeepsOthers<V>(entries: seq<(string, V)>, updates: seq<(string, V)>, k: string)
    requires k !in Keys(updates)
    ensures Lookup(SetAll(entries, updates), k) == Lookup(entries, k)
  {
    if updates != [] {
      var n := |updates| - 1;
      assert Keys(updates[..n]) == Keys(updates)[..n];
      SetAllKeepsOthers(entries, updates[..n], k);
      assert updates[n].0 == Keys(updates)[n];
      SetLookup(SetAll(entries, updates[..n]), updates[n].0, updates[n].1, k);
    }
  }

  /** Setting a key to the value it already has changes nothing. */
  lemma {:induction false} SetExisting<V>(entries: seq<(string, V)>, key: string, value: V)
    requires Lookup(entries, key) == Some(value)
    ensures Set(entries, key, value) == entries
  {
    if entries[0].0 != key {
      SetExisting(entries[1..], key, value);
    }
  }

  /** Re-setting an object's own entries one after the other changes nothing. */
  lemma {:induction false} SetAllOwnEntries<V>(entries: seq<(string, V)>, n: int)
    requires DistinctKeys(entries) && 0 <= n <= |entries|
    ensures SetAll(entries, entries[..n]) == entries
  {
    if n > 0 {
      assert entries[..n][..n - 1] == entries[..n - 1];
      SetAllOwnEntries(entries, n - 1);
      LookupFindsEach(entries, n - 1);
      SetExisting(entries, entries[n - 1].0, entries[n - 1].1);
    }
  }

  /** Every entry after a set was there before or is the one set. */
  lemma {:induction false} SetEntries<V>(entries: seq<(string, V)>, key: string, value: V, e: (string, V))
    requires e in Set(entries, key, value)
    ensures e in entries || e == (key, value)
  {
    if entries != [] && entries[0].0 != key && e != entries[0] {
      SetEntries(entries[1..], key, value, e);
    }
  }

  /** Keys that are distinct stay distinct when a key is deleted. */
  lemma {:induction false} RemoveKeepsDistinct<V>(entries: seq<(string, V)>, key: string)
    requires DistinctKeys(entries)
    ensures DistinctKeys(Remove(entries, key))
  {
    if entries != [] {
      var rest := entries[1..];
      assert DistinctKeys(rest) by {
        forall a, b | 0 <= a < b < |rest|
          ensures rest[a].0 != rest[b].0
        {
          assert rest[a] == entries[a + 1] && rest[b] == entries[b + 1];
        }
      }
      RemoveKeepsDistinct(rest, key);
      var r := Remove(rest, key);
      if entries[0].0 != key {
        KeysOfCons(entries);
        RemoveLookup(rest, key, entries[0].0);
        assert entries[0].0 !in Keys(rest) by {
          forall i | 0 <= i < |rest|
            ensures Keys(rest)[i] != entries[0].0
          {
            assert rest[i] == entries[i + 1];
          }
        }
        assert entries[0].0 !in Keys(r);
        forall a, b | 0 <= a < b < |r| + 1
          ensures ([entries[0]] + r)[a].0 != ([entries[0]] + r)[b].0
        {
          if a == 0 {
            assert ([entries[0]] + r)[b].0 == Keys(r)[b - 1];
          }
        }
      }
    }
  }
}
