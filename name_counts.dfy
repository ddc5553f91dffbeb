/**
 * A `Dictionary<K, int>` of counts as the analyzers use it: its entries in
 * insertion order (the order it enumerates them in when nothing is
 * removed), `TryGetValue` and the `counts[key] = current + 1` update.
 */
module NameCounts {
  import opened Wrappers

  /** One entry of the name counts. */
  datatype Entry<K> = Entry(key: K, count: nat)

  /** The position of the entry for `key`, if there is one. */
  function FindKey<K(==)>(entries: seq<Entry<K>>, key: K): (r: Option<nat>)
    ensures r.Some? ==> r.value < |entries| && entries[r.value].key == key
    ensures r.None? ==> forall i :: 0 <= i < |entries| ==> entries[i].key != key
    decreases |entries|
  {
    if |entries| == 0 then Option.None
    else
      var r := FindKey(entries[..|entries| - 1], key);
      if r.Some? then r
      else if entries[|entries| - 1].key == key then Some(|entries| - 1)
      else Option.None
  }

  predicate DistinctKeys<K(==)>(entries: seq<Entry<K>>)
  {
    forall i, j :: 0 <= i < j < |entries| ==> entries[i].key != entries[j].key
  }

  /** `TryGetValue`: the count stored for `key`, 0 when there is none. */
  function Lookup<K(==)>(entries: seq<Entry<K>>, key: K): nat
  {
    var i := FindKey(entries, key);
    if i.Some? then entries[i.value].count else 0
  }

  /** With distinct keys the entry found for a key is the one holding it. */
  lemma FindKeyAt<K>(entries: seq<Entry<K>>, key: K, i: nat)
    requires DistinctKeys(entries) && i < |entries| && entries[i].key == key
    ensures FindKey(entries, key) == Some(i)
  {
  }

  /** `counts[key] = current + 1` when `TryGetValue` finds the key, else `counts[key] = 1`. */
  function Increment<K(==)>(entries: seq<Entry<K>>, key: K): seq<Entry<K>>
  {
    var i := FindKey(entries, key);
    if i.Some? then entries[i.value := Entry(key, entries[i.value].count + 1)]
    else entries + [Entry(key, 1)]
  }

  /** The sum of the stored counts. */
  function Total<K>(entries: seq<Entry<K>>): nat
    decreases |entries|
  {
    if |entries| == 0 then 0 else Total(entries[..|entries| - 1]) + entries[|entries| - 1].count
  }

  lemma {:induction false} TotalUpdate<K>(entries: seq<Entry<K>>, i: nat, e: Entry<K>)
    requires i < |entries|
    ensures Total(entries[i := e]) + entries[i].count == Total(entries) + e.count
    decreases |entries|
  {
    var n := |entries|;
    var updated := entries[i := e];
    assert updated[..n - 1] == if i < n - 1 then entries[..n - 1][i := e] else entries[..n - 1];
    if i < n - 1 {
      TotalUpdate(entries[..n - 1], i, e);
    }
  }

  lemma TotalSnoc<K>(entries: seq<Entry<K>>, e: Entry<K>)
    ensures Total(entries + [e]) == Total(entries) + e.count
  {
    assert (entries + [e])[..|entries|] == entries;
  }

  /** Replacing an entry by one of the same key keeps the keys distinct and changes the count of that key only. */
  lemma UpdateLookup<K>(entries: seq<Entry<K>>, i: nat, e: Entry<K>)
    requires DistinctKeys(entries) && i < |entries| && entries[i].key == e.key
    ensures DistinctKeys(entries[i := e])
    ensures forall other :: Lookup(entries[i := e], other) == if other == e.key then e.count else Lookup(entries, other)
  {
    var r := entries[i := e];
    assert forall k :: 0 <= k < |r| ==> r[k].key == entries[k].key;
    forall other
      ensures Lookup(r, other) == if other == e.key then e.count else Lookup(entries, other)
    {
      var j := FindKey(entries, other);
      if j.Some? {
        FindKeyAt(r, other, j.value);
      }
    }
  }

  /** With the key at `i`, counting it replaces that entry. */
  lemma IncrementAt<K>(entries: seq<Entry<K>>, key: K, i: nat)
    requires DistinctKeys(entries) && i < |entries| && entries[i].key == key
    ensures Increment(entries, key) == entries[i := Entry(key, entries[i].count + 1)]
  {
    FindKeyAt(entries, key, i);
  }

  /** Counting a name already present adds one to its count and to no other. */
  lemma IncrementFound<K>(entries: seq<Entry<K>>, key: K, i: nat)
    requires DistinctKeys(entries) && i < |entries| && entries[i].key == key
    ensures var r := Increment(entries, key);
      DistinctKeys(r) && Total(r) == Total(entries) + 1
      && forall other :: Lookup(r, other) == Lookup(entries, other) + (if other == key then 1 else 0)
  {
    var e := Entry(key, entries[i].count + 1);
    IncrementAt(entries, key, i);
    TotalUpdate(entries, i, e);
    UpdateLookup(entries, i, e);
    FindKeyAt(entries, key, i);
  }

  /** Appending an entry for a new key keeps the keys distinct and leaves the other keys' counts. */
  lemma AppendLookup<K>(entries: seq<Entry<K>>, e: Entry<K>, other: K)
    requires DistinctKeys(entries) && FindKey(entries, e.key).None?
    ensures DistinctKeys(entries + [e])
    ensures Lookup(entries + [e], other) == if other == e.key then e.count else Lookup(entries, other)
  {
    var r := entries + [e];
    var j := FindKey(entries, other);
    if j.Some? {
      FindKeyAt(r, other, j.value);
    } else if other == e.key {
      FindKeyAt(r, other, |entries|);
    } else {
      assert r[..|entries|] == entries;
    }
  }

  /** Counting a new name appends an entry with count one. */
  lemma IncrementNew<K>(entries: seq<Entry<K>>, key: K)
    requires DistinctKeys(entries) && FindKey(entries, key).None?
    ensures var r := Increment(entries, key);
      DistinctKeys(r) && Total(r) == Total(entries) + 1
      && forall other :: Lookup(r, other) == Lookup(entries, other) + (if other == key then 1 else 0)
  {
    var e := Entry(key, 1);
    assert Increment(entries, key) == entries + [e];
    TotalSnoc(entries, e);
    forall other
      ensures Lookup(entries + [e], other) == Lookup(entries, other) + (if other == key then 1 else 0)
    {
      AppendLookup(entries, e, other);
    }
    AppendLookup(entries, e, key);
  }

  /**
   * Counting a name keeps the keys distinct and appends new keys at the end,
   * adds one to the count of that name and to no other, and adds one to the
   * total.
   */
  lemma IncrementCounts<K>(entries: seq<Entry<K>>, key: K)
    requires DistinctKeys(entries)
    ensures DistinctKeys(Increment(entries, key))
    ensures forall other :: Lookup(Increment(entries, key), other) == Lookup(entries, other) + (if other == key then 1 else 0)
    ensures Total(Increment(entries, key)) == Total(entries) + 1
    ensures var r := Increment(entries, key);
      |r| >= |entries| && forall i :: 0 <= i < |entries| ==> r[i].key == entries[i].key
  {
    var found := FindKey(entries, key);
    if found.Some? {
      IncrementFound(entries, key, found.value);
    } else {
      IncrementNew(entries, key);
    }
  }
}
