/** A Python dictionary: keys are unique, overwriting keeps a key's place, iteration follows insertion. */
module Dict {
  import opened Common

  datatype Entry<K, V> = Entry(key: K, value: V)

  type Dict<K, V> = seq<Entry<K, V>>

  ghost predicate UniqueKeys<K, V>(d: Dict<K, V>) {
    forall i, j :: 0 <= i < j < |d| ==> d[i].key != d[j].key
  }

  function Get<K(==), V>(d: Dict<K, V>, k: K): Option<V> {
    if d == [] then None
    else if d[|d| - 1].key == k then Some(d[|d| - 1].value)
    else Get(d[..|d| - 1], k)
  }

  /** `d[k] = v`. */
  function Put<K(==), V>(d: Dict<K, V>, k: K, v: V): (r: Dict<K, V>)
    ensures |r| == |d| || |r| == |d| + 1
  {
    if d == [] then [Entry(k, v)]
    else if d[0].key == k then [Entry(k, v)] + d[1..]
    else [d[0]] + Put(d[1..], k, v)
  }

  /** The dictionary that assigning all entries in turn builds. */
  function Build<K(==), V>(entries: seq<Entry<K, V>>): Dict<K, V> {
    if entries == [] then []
    else
      var last := entries[|entries| - 1];
      Put(Build(entries[..|entries| - 1]), last.key, last.value)
  }

  lemma ConsUnique<K(!new), V(!new)>(first: Entry<K, V>, rest: Dict<K, V>)
    requires UniqueKeys(rest) && forall e :: e in rest ==> e.key != first.key
    ensures UniqueKeys([first] + rest)
  {
    var d := [first] + rest;
    assert forall i :: 1 <= i < |d| ==> d[i] == rest[i - 1] && rest[i - 1] in rest;
  }

  lemma UniqueTail<K(!new), V(!new)>(d: Dict<K, V>)
    requires UniqueKeys(d) && d != []
    ensures UniqueKeys(d[1..]) && forall e :: e in d[1..] ==> e.key != d[0].key
  {
    assert forall i :: 0 <= i < |d[1..]| ==> d[1..][i] == d[i + 1];
  }

  /** Putting keeps keys unique, sets `k` and leaves every other entry alone. */
  lemma {:induction false} PutFacts<K(!new), V(!new)>(d: Dict<K, V>, k: K, v: V)
    requires UniqueKeys(d)
    ensures UniqueKeys(Put(d, k, v))
    ensures forall e :: e in Put(d, k, v) <==> e == Entry(k, v) || (e in d && e.key != k)
  {
    if d != [] {
      var tail := d[1..];
      assert d == [d[0]] + tail;
      UniqueTail(d);
      if d[0].key == k {
        ConsUnique(Entry(k, v), tail);
      } else {
        PutFacts(tail, k, v);
        var rest := Put(tail, k, v);
        forall e | e in rest ensures e.key != d[0].key {
          assert e == Entry(k, v) || e in tail;
        }
        ConsUnique(d[0], rest);
      }
    }
  }

  /** A new key goes to the end. */
  lemma {:induction false} PutNew<K(!new), V(!new)>(d: Dict<K, V>, k: K, v: V)
    requires forall e :: e in d ==> e.key != k
    ensures Put(d, k, v) == d + [Entry(k, v)]
  {
    if d != [] {
      assert d == [d[0]] + d[1..];
      PutNew(d[1..], k, v);
    }
  }

  /** The built dictionary has unique keys and holds only given entries. */
  lemma {:induction false} BuildFacts<K(!new), V(!new)>(entries: seq<Entry<K, V>>)
    ensures UniqueKeys(Build(entries))
    ensures forall e :: e in Build(entries) ==> e in entries
  {
    if entries != [] {
      var init, last := entries[..|entries| - 1], entries[|entries| - 1];
      BuildFacts(init);
      PutFacts(Build(init), last.key, last.value);
      assert entries == init + [last];
      forall e | e in Build(entries) ensures e in entries {
        assert e == Entry(last.key, last.value) || e in Build(init);
      }
    }
  }

  /** Every given key is present. */
  lemma {:induction false} BuildCovers<K(!new), V(!new)>(entries: seq<Entry<K, V>>, e: Entry<K, V>)
    returns (f: Entry<K, V>)
    requires e in entries
    ensures f in Build(entries) && f.key == e.key
  {
    var init, last := entries[..|entries| - 1], entries[|entries| - 1];
    assert entries == init + [last];
    BuildFacts(init);
    PutFacts(Build(init), last.key, last.value);
    if e.key == last.key {
      f := last;
    } else {
      f := BuildCovers(init, e);
    }
  }

  /** Entries with unique keys are built unchanged. */
  lemma {:induction false} BuildUnique<K(!new), V(!new)>(entries: seq<Entry<K, V>>)
    requires UniqueKeys(entries)
    ensures Build(entries) == entries
  {
    if entries != [] {
      var init, last := entries[..|entries| - 1], entries[|entries| - 1];
      BuildUnique(init);
      assert forall e :: e in init ==> e.key != last.key;
      PutNew(init, last.key, last.value);
      assert entries == init + [last];
    }
  }

  lemma {:induction false} GetFacts<K(!new), V(!new)>(d: Dict<K, V>, k: K)
    ensures Get(d, k).Some? <==> exists e :: e in d && e.key == k
    ensures Get(d, k).Some? ==> Entry(k, Get(d, k).value) in d
  {
    if d != [] {
      var init, last := d[..|d| - 1], d[|d| - 1];
      assert d == init + [last];
      GetFacts(init, k);
      if last.key == k {
        assert last == Entry(k, last.value);
      }
    }
  }

  /** The last entry of a key is the one that stays. */
  lemma {:induction false} BuildKeepsLast<K(!new), V(!new)>(entries: seq<Entry<K, V>>, i: nat)
    requires i < |entries| && forall j :: i < j < |entries| ==> entries[j].key != entries[i].key
    ensures entries[i] in Build(entries)
  {
    var init, last := entries[..|entries| - 1], entries[|entries| - 1];
    BuildFacts(init);
    PutFacts(Build(init), last.key, last.value);
    if i < |init| {
      BuildKeepsLast(init, i);
    }
  }

  /** With unique keys, every entry can be got. */
  lemma GetIs<K(!new), V(!new)>(d: Dict<K, V>, e: Entry<K, V>)
    requires UniqueKeys(d) && e in d
    ensures Get(d, e.key) == Some(e.value)
  {
    GetFacts(d, e.key);
    var f := Entry(e.key, Get(d, e.key).value);
    var i :| 0 <= i < |d| && d[i] == e;
    var j :| 0 <= j < |d| && d[j] == f;
    assert i == j;
  }

  /** Overwriting keeps the key's place. */
  lemma {:induction false} PutPlace<K(!new), V(!new)>(d: Dict<K, V>, i: nat, v: V)
    requires UniqueKeys(d) && i < |d|
    ensures Put(d, d[i].key, v) == d[..i] + [Entry(d[i].key, v)] + d[i + 1..]
  {
    if i > 0 {
      UniqueTail(d);
      assert d[1..][i - 1] == d[i];
      PutPlace(d[1..], i - 1, v);
      assert d[..i] == [d[0]] + d[1..][..i - 1] && d[1..][i..] == d[i + 1..];
    }
  }
}
