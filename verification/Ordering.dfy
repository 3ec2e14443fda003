/**
 Hash maps are walked in an arbitrary order and the result is sorted afterwards.
 `Listing` is the one sequence such a walk-and-sort can produce.
 */
module Ordering {
  import opened Common

  ghost predicate StrictTotalOrder<K(!new)>(less: (K, K) -> bool) {
    && (forall a :: !less(a, a))
    && (forall a, b :: a == b || less(a, b) || less(b, a))
    && (forall a, b, c :: less(a, b) && less(b, c) ==> less(a, c))
  }

  ghost predicate Ascending<K>(s: seq<K>, less: (K, K) -> bool) {
    forall i, j :: 0 <= i < j < |s| ==> less(s[i], s[j])
  }

  /** `s` enumerates exactly `keys`, in order and without repetition. */
  ghost predicate Enumerates<K(!new)>(s: seq<K>, keys: set<K>, less: (K, K) -> bool) {
    && Ascending(s, less)
    && (forall k :: k in s <==> k in keys)
  }

  function Insert<K>(s: seq<K>, k: K, less: (K, K) -> bool): seq<K> {
    if s == [] then [k]
    else if less(k, s[0]) then [k] + s
    else [s[0]] + Insert(s[1..], k, less)
  }

  lemma {:induction false} InsertEnumerates<K(!new)>(s: seq<K>, keys: set<K>, k: K, less: (K, K) -> bool)
    requires StrictTotalOrder(less) && Enumerates(s, keys, less) && k !in keys
    ensures Enumerates(Insert(s, k, less), keys + {k}, less)
  {
    if s == [] {
    } else if less(k, s[0]) {
      var t := [k] + s;
      assert forall i :: 0 < i < |t| ==> t[i] == s[i - 1];
      assert forall x :: x in t <==> x == k || x in s;
    } else {
      var head, tail := s[0], s[1..];
      assert s == [head] + tail;
      assert head !in tail;
      assert Enumerates(tail, keys - {head}, less) by {
        assert forall x :: x in s <==> x == head || x in tail;
      }
      InsertEnumerates(tail, keys - {head}, k, less);
      var rest := Insert(tail, k, less);
      var t := [head] + rest;
      assert forall x :: x in rest ==> less(head, x);
      assert forall i :: 0 < i < |t| ==> t[i] == rest[i - 1] && t[i] in rest;
      assert forall x :: x in t <==> x == head || x in rest;
    }
  }

  /** The sorted enumeration of a finite set of keys. */
  ghost function Listing<K(!new)>(keys: set<K>, less: (K, K) -> bool): (s: seq<K>)
    requires StrictTotalOrder(less)
    ensures Enumerates(s, keys, less)
  {
    if keys == {} then []
    else
      var k :| k in keys;
      var rest := keys - {k};
      InsertEnumerates(Listing(rest, less), rest, k, less);
      assert rest + {k} == keys;
      Insert(Listing(rest, less), k, less)
  }

  /** There is only one sorted enumeration, so the walk order is invisible afterwards. */
  lemma {:induction false} EnumerationIsUnique<K(!new)>(s: seq<K>, t: seq<K>, keys: set<K>, less: (K, K) -> bool)
    requires StrictTotalOrder(less) && Enumerates(s, keys, less) && Enumerates(t, keys, less)
    ensures s == t
    decreases |s|
  {
    assert t == [] || t[0] in s;
    if s != [] {
      assert s[0] in keys && s[0] in t;
      assert t != [] && t[0] in keys && t[0] in s;
      assert s[0] == t[0] by {
        var i :| 0 <= i < |t| && t[i] == s[0];
        var j :| 0 <= j < |s| && s[j] == t[0];
      }
      var head := s[0];
      assert s == [head] + s[1..] && t == [head] + t[1..];
      assert head !in s[1..] && head !in t[1..];
      assert forall x :: x in s <==> x == head || x in s[1..];
      assert forall x :: x in t <==> x == head || x in t[1..];
      EnumerationIsUnique(s[1..], t[1..], keys - {head}, less);
    }
  }

  predicate Distinct<T(==)>(s: seq<T>) {
    forall i, j :: 0 <= i < j < |s| ==> s[i] != s[j]
  }

  function Elements<T(==)>(s: seq<T>): set<T> {
    set x | x in s
  }

  /** A range-for over an unordered container: every key once, in an order nobody promised. */
  method Walk<K(==)>(keys: set<K>) returns (s: seq<K>)
    ensures Distinct(s) && Elements(s) == keys
  {
    s := [];
    var todo := keys;
    while todo != {}
      invariant todo <= keys && Distinct(s) && Elements(s) == keys - todo
      decreases |todo|
    {
      var k :| k in todo;
      assert k !in Elements(s);
      assert Elements(s + [k]) == Elements(s) + {k};
      s := s + [k];
      todo := todo - {k};
    }
  }

  /** Walk the keys in an arbitrary order, then sort what was collected. */
  method WalkAndSort<K(!new, ==)>(keys: set<K>, less: (K, K) -> bool) returns (s: seq<K>)
    requires StrictTotalOrder(less)
    ensures s == Listing(keys, less)
  {
    var collected := Walk(keys);
    s := [];
    for i := 0 to |collected|
      invariant Enumerates(s, Elements(collected[..i]), less)
    {
      assert collected[i] !in Elements(collected[..i]);
      InsertEnumerates(s, Elements(collected[..i]), collected[i], less);
      s := Insert(s, collected[i], less);
      assert collected[..i + 1] == collected[..i] + [collected[i]];
      assert Elements(collected[..i + 1]) == Elements(collected[..i]) + {collected[i]};
    }
    assert collected[..|collected|] == collected;
    EnumerationIsUnique(s, Listing(keys, less), keys, less);
  }

  predicate IdLess(a: u64, b: u64) {
    a < b
  }

  /** `std::string::operator<`: lexicographic on unsigned bytes. */
  predicate LexLess(a: Bytes, b: Bytes) {
    if b == [] then false
    else if a == [] then true
    else if a[0] != b[0] then a[0] < b[0]
    else LexLess(a[1..], b[1..])
  }

  lemma {:induction false} LexIrreflexive(a: Bytes)
    ensures !LexLess(a, a)
  {
    if a != [] { LexIrreflexive(a[1..]); }
  }

  lemma {:induction false} LexTotal(a: Bytes, b: Bytes)
    ensures a == b || LexLess(a, b) || LexLess(b, a)
  {
    if a != [] && b != [] && a[0] == b[0] {
      LexTotal(a[1..], b[1..]);
      assert a == [a[0]] + a[1..] && b == [b[0]] + b[1..];
    }
  }

  lemma {:induction false} LexTransitive(a: Bytes, b: Bytes, c: Bytes)
    requires LexLess(a, b) && LexLess(b, c)
    ensures LexLess(a, c)
  {
    if a != [] && a[0] == b[0] == c[0] {
      LexTransitive(a[1..], b[1..], c[1..]);
    }
  }

  /** Both key orders used by the snapshots are strict total orders. */
  lemma KeyOrders()
    ensures StrictTotalOrder(IdLess)
    ensures StrictTotalOrder(LexLess)
  {
    forall a: Bytes ensures !LexLess(a, a) { LexIrreflexive(a); }
    forall a: Bytes, b: Bytes ensures a == b || LexLess(a, b) || LexLess(b, a) { LexTotal(a, b); }
    forall a: Bytes, b: Bytes, c: Bytes | LexLess(a, b) && LexLess(b, c) ensures LexLess(a, c) { LexTransitive(a, b, c); }
  }

  // ---------------------------------------------------------------- the two key orders in use

  /** Identifiers in increasing order. */
  ghost function SortedIds(ids: set<u64>): (s: seq<u64>)
    ensures forall i, j :: 0 <= i < j < |s| ==> s[i] < s[j]
    ensures forall id :: id in s <==> id in ids
  {
    KeyOrders();
    var s := Listing(ids, IdLess);
    assert forall i, j :: 0 <= i < j < |s| ==> IdLess(s[i], s[j]);
    s
  }

  /** Tokens in the order of `std::string`. */
  ghost function SortedTokens(tokens: set<Bytes>): (s: seq<Bytes>)
    ensures forall i, j :: 0 <= i < j < |s| ==> LexLess(s[i], s[j]) && s[i] != s[j]
    ensures forall t :: t in s <==> t in tokens
  {
    KeyOrders();
    Listing(tokens, LexLess)
  }

  method SortIds(ids: set<u64>) returns (s: seq<u64>)
    ensures s == SortedIds(ids)
  {
    KeyOrders();
    s := WalkAndSort(ids, IdLess);
  }

  method SortTokens(tokens: set<Bytes>) returns (s: seq<Bytes>)
    ensures s == SortedTokens(tokens)
  {
    KeyOrders();
    s := WalkAndSort(tokens, LexLess);
  }

  lemma {:induction false} DistinctCount<T>(s: seq<T>)
    requires Distinct(s)
    ensures |Elements(s)| == |s|
  {
    if s != [] {
      var front, last := s[..|s| - 1], s[|s| - 1];
      DistinctCount(front);
      assert s == front + [last];
      assert Elements(s) == Elements(front) + {last};
    }
  }

  lemma SortedCount(ids: set<u64>)
    ensures |SortedIds(ids)| == |ids|
  {
    DistinctCount(SortedIds(ids));
    assert Elements(SortedIds(ids)) == ids;
  }

  // ---------------------------------------------------------------- tables and their rows

  /** The rows of a table for the given keys, in that order. */
  function Rows<K, V>(table: map<K, V>, keys: seq<K>): (rows: seq<V>)
    requires forall k :: k in keys ==> k in table
    ensures |rows| == |keys| && forall i :: 0 <= i < |keys| ==> rows[i] == table[keys[i]]
  {
    seq(|keys|, i requires 0 <= i < |keys| => table[keys[i]])
  }

  /** Rebuilding a table from rows, later rows replacing earlier ones. */
  function Table<K(==), V>(rows: seq<V>, key: V -> K): (table: map<K, V>) {
    if rows == [] then map[]
    else Table(rows[..|rows| - 1], key)[key(rows[|rows| - 1]) := rows[|rows| - 1]]
  }

  lemma {:induction false} TableEntries<K(!new), V>(rows: seq<V>, key: V -> K)
    ensures forall k :: k in Table(rows, key) ==> key(Table(rows, key)[k]) == k && Table(rows, key)[k] in rows
  {
    if rows != [] {
      TableEntries(rows[..|rows| - 1], key);
      assert rows == rows[..|rows| - 1] + [rows[|rows| - 1]];
    }
  }

  lemma {:induction false} TableKeys<K(!new), V>(rows: seq<V>, key: V -> K)
    ensures forall k :: k in Table(rows, key) <==> exists i :: 0 <= i < |rows| && key(rows[i]) == k
  {
    if rows != [] {
      var front, last := rows[..|rows| - 1], rows[|rows| - 1];
      TableKeys(front, key);
      forall i | 0 <= i < |rows| ensures key(rows[i]) in Table(rows, key) {
        assert i < |front| ==> key(front[i]) in Table(front, key);
      }
      forall k | k in Table(rows, key) ensures exists i :: 0 <= i < |rows| && key(rows[i]) == k {
        if k in Table(front, key) {
          var i :| 0 <= i < |front| && key(front[i]) == k;
          assert key(rows[i]) == k;
        } else {
          assert key(rows[|rows| - 1]) == k;
        }
      }
    }
  }

  /** With distinct keys every row is found under its own key, and nothing is lost. */
  lemma {:induction false} TableFinds<K(!new), V>(rows: seq<V>, key: V -> K, i: nat)
    requires i < |rows|
    requires forall i, j :: 0 <= i < j < |rows| ==> key(rows[i]) != key(rows[j])
    ensures key(rows[i]) in Table(rows, key) && Table(rows, key)[key(rows[i])] == rows[i]
  {
    if i < |rows| - 1 {
      TableFinds(rows[..|rows| - 1], key, i);
      assert key(rows[i]) != key(rows[|rows| - 1]);
    }
  }

  lemma {:induction false} TableSize<K(!new), V>(rows: seq<V>, key: V -> K)
    requires forall i, j :: 0 <= i < j < |rows| ==> key(rows[i]) != key(rows[j])
    ensures |Table(rows, key)| == |rows|
  {
    if rows != [] {
      TableSize(rows[..|rows| - 1], key);
      TableKeys(rows[..|rows| - 1], key);
    }
  }

  /** A table whose rows know their own key is recovered exactly from its rows. */
  lemma TableOfRows<K(!new), V>(table: map<K, V>, keys: seq<K>, key: V -> K)
    requires Distinct(keys)
    requires forall k :: k in keys <==> k in table
    requires forall k :: k in table ==> key(table[k]) == k
    ensures Table(Rows(table, keys), key) == table
  {
    var rows := Rows(table, keys);
    TableKeys(rows, key);
    forall k | k in table ensures k in Table(rows, key) && Table(rows, key)[k] == table[k] {
      var i :| 0 <= i < |keys| && keys[i] == k;
      TableFinds(rows, key, i);
    }
  }
}
