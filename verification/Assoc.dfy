/** Maps that remember the order in which their keys came, as JavaScript's Map does, and stable sorting. */
module Assoc {
  import opened Wrappers

  type Assoc<K, V> = seq<(K, V)>

  predicate Has<K(==), V>(m: Assoc<K, V>, key: K) {
    exists i :: 0 <= i < |m| && m[i].0 == key
  }

  predicate Distinct<K(==), V>(m: Assoc<K, V>) {
    forall i, j :: 0 <= i < j < |m| ==> m[i].0 != m[j].0
  }

  function Lookup<K(==), V>(m: Assoc<K, V>, key: K): (v: Option<V>)
    ensures v.Some? <==> Has(m, key)
    ensures v.Some? ==> (key, v.value) in m
  {
    if m == [] then None
    else if m[0].0 == key then assert m[0] in m; Some(m[0].1)
    else
      assert forall i :: 0 <= i < |m| - 1 ==> m[1..][i] == m[i + 1];
      Lookup(m[1..], key)
  }

  function CountOf<K(==)>(m: Assoc<K, int>, key: K): int {
    match Lookup(m, key) case Some(n) => n case None => 0
  }

  /** map.set(key, value): in place for a known key, at the end for a new one. */
  function Put<K(==), V>(m: Assoc<K, V>, key: K, value: V): Assoc<K, V> {
    if m == [] then [(key, value)]
    else if m[0].0 == key then [(key, value)] + m[1..]
    else [m[0]] + Put(m[1..], key, value)
  }

  /** addCount of the script: a missing count is 0. */
  function AddCount<K(==)>(m: Assoc<K, int>, key: K, count: int): Assoc<K, int> {
    Put(m, key, CountOf(m, key) + count)
  }

  function PutAll<K(==), V>(m: Assoc<K, V>, entries: Assoc<K, V>): Assoc<K, V> {
    if entries == [] then m else
    var last := entries[|entries| - 1];
    Put(PutAll(m, entries[..|entries| - 1]), last.0, last.1)
  }

  function AddAll<K(==)>(m: Assoc<K, int>, entries: Assoc<K, int>): Assoc<K, int> {
    if entries == [] then m else
    var last := entries[|entries| - 1];
    AddCount(AddAll(m, entries[..|entries| - 1]), last.0, last.1)
  }

  /** Adds the entries whose key is not there yet. */
  function PutMissing<K(==), V>(m: Assoc<K, V>, entries: Assoc<K, V>): Assoc<K, V> {
    if entries == [] then m else
    var last, before := entries[|entries| - 1], PutMissing(m, entries[..|entries| - 1]);
    if Has(before, last.0) then before else Put(before, last.0, last.1)
  }

  /** The sum of all counts listed for `key`. */
  function Total<K(==)>(entries: Assoc<K, int>, key: K): int {
    if entries == [] then 0 else
    var last := entries[|entries| - 1];
    Total(entries[..|entries| - 1], key) + if last.0 == key then last.1 else 0
  }

  // ---- what one update does ----

  lemma {:induction false} PutDoes<K, V>(m: Assoc<K, V>, key: K, value: V)
    requires Distinct(m)
    ensures Distinct(Put(m, key, value))
    ensures !Has(m, key) ==> Put(m, key, value) == m + [(key, value)]
    ensures Has(m, key) ==> |Put(m, key, value)| == |m|
    ensures forall k :: Lookup(Put(m, key, value), k) == if k == key then Some(value) else Lookup(m, k)
    ensures forall k :: Has(Put(m, key, value), k) <==> Has(m, k) || k == key
    decreases |m|
  {
    if m != [] {
      var after := Put(m, key, value);
      assert forall i :: 0 <= i < |m| - 1 ==> m[1..][i] == m[i + 1];
      if m[0].0 == key {
        assert after[1..] == m[1..];
        assert Has(m, key);
      } else {
        PutDoes(m[1..], key, value);
        assert after[1..] == Put(m[1..], key, value);
        assert !Has(m[1..], m[0].0);
        assert forall j :: 1 <= j < |after| ==> after[j] == after[1..][j - 1];
        assert Has(m[1..], key) ==> Has(m, key);
        assert Has(m, key) ==> Has(m[1..], key) by {
          if i :| 0 <= i < |m| && m[i].0 == key { assert m[1..][i - 1].0 == key; }
        }
      }
      forall k ensures Lookup(after, k) == if k == key then Some(value) else Lookup(m, k) {}
    } else {
      assert [(key, value)][1..] == [];
    }
    forall k ensures Has(Put(m, key, value), k) <==> Has(m, k) || k == key {
      assert Lookup(Put(m, key, value), k).Some? <==> Has(Put(m, key, value), k);
      assert Lookup(m, k).Some? <==> Has(m, k);
    }
  }

  // ---- what lists of updates do ----

  lemma AddedKeys<K>(m: Assoc<K, int>, key: K, count: int)
    requires Distinct(m)
    ensures Distinct(AddCount(m, key, count)) && |AddCount(m, key, count)| <= |m| + 1
    ensures forall k :: Has(AddCount(m, key, count), k) <==> Has(m, k) || k == key
  {
    PutDoes(m, key, CountOf(m, key) + count);
    hide Put, Lookup, Has, Distinct, CountOf;
  }

  lemma {:induction false} AddAllKeys<K>(m: Assoc<K, int>, entries: Assoc<K, int>)
    requires Distinct(m)
    ensures Distinct(AddAll(m, entries))
    ensures forall k :: Has(AddAll(m, entries), k) <==> Has(m, k) || Has(entries, k)
    ensures |AddAll(m, entries)| <= |m| + |entries|
    decreases |entries|
  {
    if entries != [] {
      var n := |entries| - 1;
      var last, before := entries[n], AddAll(m, entries[..n]);
      AddAllKeys(m, entries[..n]);
      hide Has, Distinct, AddCount;
      AddedKeys(before, last.0, last.1);
      HasLast(entries);
    }
  }

  lemma CountAdded<K>(m: Assoc<K, int>, key: K, count: int, k: K)
    requires Distinct(m)
    ensures CountOf(AddCount(m, key, count), k) == CountOf(m, k) + if k == key then count else 0
  {
    PutDoes(m, key, CountOf(m, key) + count);
    hide Put, Lookup, Has, Distinct;
  }

  lemma {:induction false} AddAllCount<K>(m: Assoc<K, int>, entries: Assoc<K, int>, k: K)
    requires Distinct(m)
    ensures CountOf(AddAll(m, entries), k) == CountOf(m, k) + Total(entries, k)
    decreases |entries|
  {
    if entries != [] {
      var n := |entries| - 1;
      var last, before := entries[n], AddAll(m, entries[..n]);
      AddAllCount(m, entries[..n], k);
      AddAllKeys(m, entries[..n]);
      hide AddCount, CountOf, Has, Distinct;
      CountAdded(before, last.0, last.1, k);
    }
  }

  /** Adding a list of counts adds, for every key, the sum of what the list says of it. */
  lemma AddAllDoes<K>(m: Assoc<K, int>, entries: Assoc<K, int>)
    requires Distinct(m)
    ensures Distinct(AddAll(m, entries))
    ensures forall k :: CountOf(AddAll(m, entries), k) == CountOf(m, k) + Total(entries, k)
    ensures forall k :: Has(AddAll(m, entries), k) <==> Has(m, k) || Has(entries, k)
    ensures |AddAll(m, entries)| <= |m| + |entries|
  {
    AddAllKeys(m, entries);
    hide Distinct, Has, AddAll, CountOf, Total;
    forall k ensures CountOf(AddAll(m, entries), k) == CountOf(m, k) + Total(entries, k) { AddAllCount(m, entries, k); }
  }

  lemma HasLast<K, V>(entries: Assoc<K, V>)
    requires entries != []
    ensures forall k :: Has(entries, k) <==> Has(entries[..|entries| - 1], k) || entries[|entries| - 1].0 == k
  {
    var n := |entries| - 1;
    forall k ensures Has(entries, k) <==> Has(entries[..n], k) || entries[n].0 == k {
      if Has(entries[..n], k) {
        var i :| 0 <= i < n && entries[..n][i].0 == k;
        assert entries[i].0 == k;
      }
      if Has(entries, k) {
        var i :| 0 <= i <= n && entries[i].0 == k;
        if i < n { assert entries[..n][i].0 == k; }
      }
    }
  }

  lemma {:induction false} TotalIsCount<K>(entries: Assoc<K, int>, key: K)
    requires Distinct(entries)
    ensures Total(entries, key) == CountOf(entries, key)
    decreases |entries|
  {
    if entries != [] {
      var n := |entries| - 1;
      TotalIsCount(entries[..n], key);
      assert !Has(entries[..n], entries[n].0);
      assert entries == entries[..n] + [entries[n]];
      assert Lookup(entries[..n], key).Some? <==> Has(entries[..n], key);
      hide Has, Lookup, Distinct;
      LookupAppend(entries[..n], entries[n], key);
    }
  }

  /** Keys already known keep their value; a new one gets the first value listed for it. */
  lemma {:induction false} PutMissingDoes<K, V>(m: Assoc<K, V>, entries: Assoc<K, V>)
    requires Distinct(m)
    ensures Distinct(PutMissing(m, entries))
    ensures forall k :: Lookup(PutMissing(m, entries), k) == if Has(m, k) then Lookup(m, k) else Lookup(entries, k)
    decreases |entries|
  {
    if entries != [] {
      var n := |entries| - 1;
      var last, before := entries[n], PutMissing(m, entries[..n]);
      PutMissingDoes(m, entries[..n]);
      if !Has(before, last.0) { PutDoes(before, last.0, last.1); }
      forall k ensures Lookup(PutMissing(m, entries), k) == if Has(m, k) then Lookup(m, k) else Lookup(entries, k) {
        assert Lookup(before, k).Some? <==> Has(before, k);
        LookupAppend(entries[..n], last, k);
        assert entries == entries[..n] + [last];
      }
    }
  }

  lemma {:induction false} LookupAppend<K, V>(m: Assoc<K, V>, last: (K, V), key: K)
    ensures Lookup(m + [last], key) ==
            if Has(m, key) then Lookup(m, key) else if last.0 == key then Some(last.1) else None
    decreases |m|
  {
    if m != [] {
      assert (m + [last])[1..] == m[1..] + [last];
      LookupAppend(m[1..], last, key);
      assert Lookup(m, key).Some? <==> Has(m, key);
      assert Lookup(m[1..], key).Some? <==> Has(m[1..], key);
      assert Has(m, key) <==> m[0].0 == key || Has(m[1..], key);
    } else {
      assert ([last])[1..] == [];
      assert ([] + [last]) == [last];
    }
  }

  /** An order-keeping map with distinct keys is rebuilt entry by entry from the empty one. */
  lemma {:induction false} Rebuilt<K, V>(entries: Assoc<K, V>)
    requires Distinct(entries)
    ensures PutAll([], entries) == entries
    ensures PutMissing([], entries) == entries
    decreases |entries|
  {
    if entries != [] {
      var n := |entries| - 1;
      Rebuilt(entries[..n]);
      PutDoes(entries[..n], entries[n].0, entries[n].1);
      assert !Has(entries[..n], entries[n].0);
      assert entries == entries[..n] + [(entries[n].0, entries[n].1)];
    }
  }

  /** Adding up a list of counts changes nothing exactly when no key is listed twice. */
  lemma {:induction false} AddedUp<K>(entries: Assoc<K, int>)
    ensures Distinct(entries) ==> AddAll([], entries) == entries
    ensures !Distinct(entries) ==> |AddAll([], entries)| < |entries|
    decreases |entries|
  {
    if entries != [] {
      var n := |entries| - 1;
      var before := AddAll([], entries[..n]);
      AddedUp(entries[..n]);
      DistinctLast(entries);
      AddedLast(entries);
      hide Distinct, Has, AddAll;
    }
  }

  lemma DistinctLast<K, V>(entries: Assoc<K, V>)
    requires entries != []
    ensures Distinct(entries) <==>
            Distinct(entries[..|entries| - 1]) && !Has(entries[..|entries| - 1], entries[|entries| - 1].0)
  {
    var n := |entries| - 1;
    assert forall i :: 0 <= i < n ==> entries[..n][i] == entries[i];
    if Distinct(entries[..n]) && !Has(entries[..n], entries[n].0) {
      forall i, j | 0 <= i < j <= n ensures entries[i].0 != entries[j].0 {
        assert entries[..n][i] == entries[i];
        if j < n { assert entries[..n][j] == entries[j]; }
      }
    }
  }

  lemma AddedLast<K>(entries: Assoc<K, int>)
    requires entries != []
    ensures var n := |entries| - 1;
            if Has(entries[..n], entries[n].0) then |AddAll([], entries)| == |AddAll([], entries[..n])| <= n
            else AddAll([], entries) == AddAll([], entries[..n]) + [entries[n]] && |AddAll([], entries[..n])| <= n
  {
    var n := |entries| - 1;
    var last, before := entries[n], AddAll([], entries[..n]);
    AddAllDoes([], entries[..n]);
    PutDoes(before, last.0, CountOf(before, last.0) + last.1);
    assert Lookup(before, last.0).Some? <==> Has(before, last.0);
    assert !Has<K, int>([], last.0);
    hide Distinct, Has, Total;
  }

  // ---- stable sorting ----

  ghost predicate Comparable<T(!new)>(leq: (T, T) -> bool) {
    forall a, b :: leq(a, b) || leq(b, a)
  }

  function InsertSorted<T>(leq: (T, T) -> bool, x: T, s: seq<T>): seq<T> {
    if s == [] || leq(x, s[0]) then [x] + s else [s[0]] + InsertSorted(leq, x, s[1..])
  }

  /** Array.prototype.sort: equal elements keep their order. */
  function Sort<T>(leq: (T, T) -> bool, s: seq<T>): seq<T> {
    if s == [] then [] else InsertSorted(leq, s[0], Sort(leq, s[1..]))
  }

  ghost predicate Sorted<T(!new)>(leq: (T, T) -> bool, s: seq<T>) {
    forall i :: 0 <= i < |s| - 1 ==> leq(s[i], s[i + 1])
  }

  lemma {:induction false} InsertHolds<T(!new)>(leq: (T, T) -> bool, x: T, s: seq<T>)
    ensures multiset(InsertSorted(leq, x, s)) == multiset(s) + multiset{x}
    decreases |s|
  {
    if s != [] {
      InsertHolds(leq, x, s[1..]);
      assert s == [s[0]] + s[1..];
    }
  }

  lemma {:induction false} InsertStaysSorted<T(!new)>(leq: (T, T) -> bool, x: T, s: seq<T>)
    requires Comparable(leq) && Sorted(leq, s)
    ensures Sorted(leq, InsertSorted(leq, x, s))
    decreases |s|
  {
    var after := InsertSorted(leq, x, s);
    if s != [] && !leq(x, s[0]) {
      var rest := InsertSorted(leq, x, s[1..]);
      assert forall i :: 0 <= i < |s| - 1 ==> s[1..][i] == s[i + 1];
      InsertStaysSorted(leq, x, s[1..]);
      if rest[0] != x { assert leq(s[0], s[0 + 1]); }
      forall i | 0 <= i < |after| - 1 ensures leq(after[i], after[i + 1]) {
        if i > 0 { assert leq(rest[i - 1], rest[i - 1 + 1]); }
      }
    }
  }

  lemma {:induction false} SortDoes<T(!new)>(leq: (T, T) -> bool, s: seq<T>)
    ensures multiset(Sort(leq, s)) == multiset(s)
    ensures |Sort(leq, s)| == |s|
    ensures forall x :: x in Sort(leq, s) <==> x in s
    ensures Comparable(leq) ==> Sorted(leq, Sort(leq, s))
    decreases |s|
  {
    if s != [] {
      assert s == [s[0]] + s[1..];
      SortDoes(leq, s[1..]);
      InsertHolds(leq, s[0], Sort(leq, s[1..]));
      if Comparable(leq) { InsertStaysSorted(leq, s[0], Sort(leq, s[1..])); }
    }
    var after := Sort(leq, s);
    assert |multiset(after)| == |after| && |multiset(s)| == |s|;
    forall x ensures x in after <==> x in s {
      assert x in after <==> x in multiset(after);
      assert x in s <==> x in multiset(s);
    }
  }

  /** A list already in order is left alone. */
  lemma {:induction false} SortKeeps<T(!new)>(leq: (T, T) -> bool, s: seq<T>)
    requires Sorted(leq, s)
    ensures Sort(leq, s) == s
    decreases |s|
  {
    if s != [] {
      assert forall i :: 0 <= i < |s| - 1 ==> s[1..][i] == s[i + 1];
      SortKeeps(leq, s[1..]);
      if |s| > 1 { assert leq(s[0], s[0 + 1]); }
      assert s == [s[0]] + s[1..];
    }
  }

  predicate NoRepeats<T(==)>(s: seq<T>) {
    forall i, j :: 0 <= i < j < |s| ==> s[i] != s[j]
  }

  lemma {:induction false} NoRepeatsCounts<T>(s: seq<T>)
    ensures NoRepeats(s) <==> forall x :: multiset(s)[x] <= 1
    decreases |s|
  {
    if s != [] {
      NoRepeatsCounts(s[1..]);
      assert s == [s[0]] + s[1..];
      assert multiset(s) == multiset{s[0]} + multiset(s[1..]);
      if NoRepeats(s) {
        assert forall i :: 0 <= i < |s| - 1 ==> s[1..][i] == s[i + 1];
        assert NoRepeats(s[1..]);
        assert s[0] !in s[1..];
        forall x ensures multiset(s)[x] <= 1 {
          assert multiset(s[1..])[x] <= 1;
          assert s[0] !in multiset(s[1..]);
        }
      }
      if forall x :: multiset(s)[x] <= 1 {
        forall x ensures multiset(s[1..])[x] <= 1 { assert multiset(s)[x] <= 1; }
        assert multiset(s)[s[0]] <= 1;
        assert s[0] !in multiset(s[1..]);
        forall i, j | 0 <= i < j < |s| ensures s[i] != s[j] {
          assert s[j] == s[1..][j - 1];
          assert s[j] in s[1..];
          if i > 0 { assert s[i] == s[1..][i - 1]; }
        }
      }
    }
  }

  function Keys<K, V>(m: Assoc<K, V>): (keys: seq<K>)
    ensures |keys| == |m| && forall i :: 0 <= i < |m| ==> keys[i] == m[i].0
  {
    seq(|m|, i requires 0 <= i < |m| => m[i].0)
  }

  lemma {:induction false} InsertedKeys<K(!new), V(!new)>(leq: ((K, V), (K, V)) -> bool, x: (K, V), m: Assoc<K, V>)
    ensures multiset(Keys(InsertSorted(leq, x, m))) == multiset(Keys(m)) + multiset{x.0}
    decreases |m|
  {
    var after := InsertSorted(leq, x, m);
    if m != [] && !leq(x, m[0]) {
      InsertedKeys(leq, x, m[1..]);
      assert Keys(m) == [m[0].0] + Keys(m[1..]);
      assert Keys(after) == [m[0].0] + Keys(InsertSorted(leq, x, m[1..]));
    } else {
      assert Keys(after) == [x.0] + Keys(m);
    }
  }

  lemma {:induction false} SortedKeys<K(!new), V(!new)>(leq: ((K, V), (K, V)) -> bool, m: Assoc<K, V>)
    ensures multiset(Keys(Sort(leq, m))) == multiset(Keys(m))
    decreases |m|
  {
    if m != [] {
      SortedKeys(leq, m[1..]);
      InsertedKeys(leq, m[0], Sort(leq, m[1..]));
      assert Keys(m) == [m[0].0] + Keys(m[1..]);
    }
  }

  /** Sorting the entries of a map keeps its keys distinct and its values. */
  lemma SortedMap<K(!new), V(!new)>(leq: ((K, V), (K, V)) -> bool, m: Assoc<K, V>)
    ensures Distinct(Sort(leq, m)) <==> Distinct(m)
    ensures Distinct(m) ==> forall k :: Lookup(Sort(leq, m), k) == Lookup(m, k)
  {
    var after := Sort(leq, m);
    SortDoes(leq, m);
    SortedKeys(leq, m);
    NoRepeatsCounts(Keys(m));
    NoRepeatsCounts(Keys(after));
    assert Distinct(m) <==> NoRepeats(Keys(m));
    assert Distinct(after) <==> NoRepeats(Keys(after));
    if Distinct(m) {
      forall k ensures Lookup(after, k) == Lookup(m, k) {
        assert Lookup(m, k).Some? ==> (k, Lookup(m, k).value) in after;
        assert Lookup(after, k).Some? ==> (k, Lookup(after, k).value) in m;
        if Lookup(m, k).Some? { Found(after, k, Lookup(m, k).value); }
        if Lookup(after, k).Some? { Found(m, k, Lookup(after, k).value); }
      }
    }
  }

  lemma {:induction false} Found<K, V>(m: Assoc<K, V>, key: K, value: V)
    requires Distinct(m)
    requires (key, value) in m
    ensures Lookup(m, key) == Some(value)
    decreases |m|
  {
    assert forall i :: 0 <= i < |m| - 1 ==> m[1..][i] == m[i + 1];
    var i :| 0 <= i < |m| && m[i] == (key, value);
    if i > 0 {
      assert m[0].0 != m[i].0;
      assert m[1..][i - 1] == (key, value);
      Found(m[1..], key, value);
    }
  }
}
