/** Dictionaries from keys to times that remember the order in which their keys were inserted. */
module OrderedTable {
  import opened Collections

  datatype Entry<K> = Entry(key: K, at: nat)

  ghost predicate DistinctKeys<K>(table: seq<Entry<K>>) {
    forall i, j :: 0 <= i < j < |table| ==> table[i].key != table[j].key
  }

  function Keys<K>(table: seq<Entry<K>>): set<K> { set e | e in table :: e.key }

  /** Where the key stands; the length if it is missing. */
  function Find<K(==)>(table: seq<Entry<K>>, key: K): (i: nat)
    ensures i <= |table|
    ensures forall k :: 0 <= k < i ==> table[k].key != key
    ensures i < |table| ==> table[i].key == key
  {
    if table == [] || table[0].key == key then 0 else 1 + Find(table[1..], key)
  }

  /** A known key keeps its place, a new one goes to the end. */
  function Put<K(==)>(table: seq<Entry<K>>, e: Entry<K>): seq<Entry<K>> {
    var i := Find(table, e.key);
    if i < |table| then table[i := e] else table + [e]
  }

  /** The first of the entries with the smallest time. */
  function Oldest<K>(table: seq<Entry<K>>): (i: nat)
    requires table != []
    ensures i < |table|
    ensures forall k :: 0 <= k < |table| ==> table[i].at <= table[k].at
    ensures forall k :: 0 <= k < i ==> table[i].at < table[k].at
  {
    if |table| == 1 then 0
    else
      var rest := Oldest(table[1..]);
      assert forall k :: 1 <= k < |table| ==> table[k] == table[1..][k - 1];
      if table[0].at <= table[1..][rest].at then 0 else rest + 1
  }

  /** The table with some keys popped. */
  function Without<K(==)>(table: seq<Entry<K>>, gone: set<K>): seq<Entry<K>> {
    if table == [] then []
    else if table[0].key in gone then Without(table[1..], gone)
    else [table[0]] + Without(table[1..], gone)
  }

  lemma PutKeys<K>(table: seq<Entry<K>>, e: Entry<K>)
    requires DistinctKeys(table)
    ensures DistinctKeys(Put(table, e)) && Keys(Put(table, e)) == Keys(table) + {e.key}
  {
    var i, put := Find(table, e.key), Put(table, e);
    forall k | k in Keys(table) + {e.key}
      ensures k in Keys(put)
    {
      if k == e.key {
        assert put[if i < |table| then i else |table|] == e;
      } else {
        var j :| 0 <= j < |table| && table[j].key == k;
        assert put[j] == table[j];
      }
    }
  }

  lemma RemoveAtKeys<K>(table: seq<Entry<K>>, i: nat)
    requires DistinctKeys(table) && i < |table|
    ensures DistinctKeys(RemoveAt(table, i)) && Keys(RemoveAt(table, i)) == Keys(table) - {table[i].key}
  {
    var rest := RemoveAt(table, i);
    forall k | k in Keys(table) - {table[i].key}
      ensures k in Keys(rest)
    {
      var j :| 0 <= j < |table| && table[j].key == k;
      assert rest[if j < i then j else j - 1] == table[j];
    }
  }

  lemma {:induction false} WithoutHas<K>(table: seq<Entry<K>>, gone: set<K>, e: Entry<K>)
    ensures e in Without(table, gone) <==> e in table && e.key !in gone
    decreases |table|
  {
    if table != [] {
      WithoutHas(table[1..], gone, e);
      assert table == [table[0]] + table[1..];
    }
  }

  lemma {:induction false} WithoutStaysDistinct<K>(table: seq<Entry<K>>, gone: set<K>)
    requires DistinctKeys(table)
    ensures DistinctKeys(Without(table, gone))
    decreases |table|
  {
    if table != [] {
      var rest := Without(table[1..], gone);
      WithoutStaysDistinct(table[1..], gone);
      forall i | 0 <= i < |rest| ensures rest[i].key != table[0].key {
        WithoutHas(table[1..], gone, rest[i]);
        assert rest[i] in rest && rest[i] in table[1..];
      }
    }
  }

  lemma WithoutKeys<K>(table: seq<Entry<K>>, gone: set<K>)
    requires DistinctKeys(table)
    ensures DistinctKeys(Without(table, gone)) && Keys(Without(table, gone)) == Keys(table) - gone
  {
    WithoutStaysDistinct(table, gone);
    forall e: Entry<K> { WithoutHas(table, gone, e); }
  }

  /** The loops that find the oldest entry and a key. */
  method FindOldest<K>(table: seq<Entry<K>>) returns (oldest: nat)
    requires table != []
    ensures oldest == Oldest(table)
  {
    oldest := 0;
    for i := 1 to |table|
      invariant oldest < i
      invariant forall k :: 0 <= k < i ==> table[oldest].at <= table[k].at
      invariant forall k :: 0 <= k < oldest ==> table[oldest].at < table[k].at
    {
      if table[i].at < table[oldest].at { oldest := i; }
    }
  }

  method Lookup<K(==)>(table: seq<Entry<K>>, key: K) returns (i: nat)
    ensures i == Find(table, key)
  {
    i := 0;
    while i < |table| && table[i].key != key
      invariant i <= |table| && forall k :: 0 <= k < i ==> table[k].key != key
    {
      i := i + 1;
    }
  }
}
