/** Relational definitions and counts that the join theorems share. */
module Relational {
  import opened Hashing

  /** The rows whose key no probe has, by definition. */
  function WithoutPartner<V>(rows: seq<Row<V>>, keys: seq<Key>): seq<Row<V>> {
    if rows == [] then []
    else (if rows[0].key in keys then [] else [rows[0]]) + WithoutPartner(rows[1..], keys)
  }

  lemma {:induction false} WithoutPartnerConcat<V>(a: seq<Row<V>>, b: seq<Row<V>>, keys: seq<Key>)
    ensures WithoutPartner(a + b, keys) == WithoutPartner(a, keys) + WithoutPartner(b, keys)
  {
    if a == [] {
      assert a + b == b;
    } else {
      assert (a + b)[1..] == a[1..] + b;
      WithoutPartnerConcat(a[1..], b, keys);
    }
  }

  /** A filtered list is determined by the multiset of its input. */
  lemma {:induction false} FilterCount<V>(rows: seq<Row<V>>, keys: seq<Key>, row: Row<V>)
    ensures multiset(WithoutPartner(rows, keys))[row] == if row.key in keys then 0 else multiset(rows)[row]
  {
    if rows != [] {
      assert rows == [rows[0]] + rows[1..];
      FilterCount(rows[1..], keys, row);
    }
  }

  lemma FilterSameRows<V(!new)>(a: seq<Row<V>>, b: seq<Row<V>>, keys: seq<Key>)
    requires multiset(a) == multiset(b)
    ensures multiset(WithoutPartner(a, keys)) == multiset(WithoutPartner(b, keys))
  {
    forall row: Row<V> ensures multiset(WithoutPartner(a, keys))[row] == multiset(WithoutPartner(b, keys))[row] {
      FilterCount(a, keys, row);
      FilterCount(b, keys, row);
    }
  }

  /** How many rows have key `k`. */
  function KeyCount<V>(rows: seq<Row<V>>, k: Key): nat {
    if rows == [] then 0 else (if rows[0].key == k then 1 else 0) + KeyCount(rows[1..], k)
  }

  lemma {:induction false} KeyCountConcat<V>(a: seq<Row<V>>, b: seq<Row<V>>, k: Key)
    ensures KeyCount(a + b, k) == KeyCount(a, k) + KeyCount(b, k)
  {
    if a == [] {
      assert a + b == b;
    } else {
      assert (a + b)[1..] == a[1..] + b;
      KeyCountConcat(a[1..], b, k);
    }
  }

  lemma {:induction false} KeyCountRest<V>(rows: seq<Row<V>>, k: Key)
    ensures KeyCount(rows, k) + |WithoutPartner(rows, [k])| == |rows|
  {
    if rows != [] {
      KeyCountRest(rows[1..], k);
    }
  }

  lemma KeyCountPermutation<V(!new)>(a: seq<Row<V>>, b: seq<Row<V>>, k: Key)
    requires multiset(a) == multiset(b)
    ensures KeyCount(a, k) == KeyCount(b, k)
  {
    KeyCountRest(a, k);
    KeyCountRest(b, k);
    FilterSameRows(a, b, [k]);
    assert |multiset(a)| == |a| && |multiset(b)| == |b|;
    assert |multiset(WithoutPartner(a, [k]))| == |WithoutPartner(a, [k])|;
    assert |multiset(WithoutPartner(b, [k]))| == |WithoutPartner(b, [k])|;
  }

  /** The rows whose key some probe has, by definition. */
  function WithPartner<V>(rows: seq<Row<V>>, keys: seq<Key>): seq<Row<V>> {
    if rows == [] then []
    else (if rows[0].key in keys then [rows[0]] else []) + WithPartner(rows[1..], keys)
  }

  lemma {:induction false} PartnerIsRow<V>(rows: seq<Row<V>>, keys: seq<Key>, row: Row<V>)
    ensures row in WithPartner(rows, keys) <==> row in rows && row.key in keys
  {
    if rows != [] {
      assert rows == [rows[0]] + rows[1..];
      PartnerIsRow(rows[1..], keys, row);
    }
  }

  lemma {:induction false} PartnerCount<V>(rows: seq<Row<V>>, keys: seq<Key>, k: Key)
    ensures KeyCount(WithPartner(rows, keys), k) == if k in keys then KeyCount(rows, k) else 0
  {
    if rows != [] {
      PartnerCount(rows[1..], keys, k);
      KeyCountConcat(if rows[0].key in keys then [rows[0]] else [], WithPartner(rows[1..], keys), k);
    }
  }

  lemma {:induction false} NoKeyNoCount<V>(rows: seq<Row<V>>, k: Key)
    requires forall i :: 0 <= i < |rows| ==> rows[i].key != k
    ensures KeyCount(rows, k) == 0
  {
    if rows != [] {
      NoKeyNoCount(rows[1..], k);
    }
  }

  lemma {:induction false} DistinctCount<V>(rows: seq<Row<V>>, k: Key)
    requires DistinctKeys(rows)
    ensures KeyCount(rows, k) <= 1
  {
    if rows != [] {
      if rows[0].key == k {
        NoKeyNoCount(rows[1..], k);
      } else {
        DistinctCount(rows[1..], k);
      }
    }
  }

  /** Among rows with distinct keys, counting keys is counting rows. */
  lemma {:induction false} RowCount<V>(all: seq<Row<V>>, rows: seq<Row<V>>, row: Row<V>)
    requires DistinctKeys(all) && row in all && forall r :: r in rows ==> r in all
    ensures multiset(rows)[row] == KeyCount(rows, row.key)
  {
    if rows != [] {
      assert rows == [rows[0]] + rows[1..];
      assert rows[0] in all;
      RowCount(all, rows[1..], row);
    }
  }

  lemma SameBags<V(!new)>(all: seq<Row<V>>, a: seq<Row<V>>, b: seq<Row<V>>)
    requires DistinctKeys(all) && (forall r :: r in a ==> r in all) && (forall r :: r in b ==> r in all)
    requires forall k :: KeyCount(a, k) == KeyCount(b, k)
    ensures multiset(a) == multiset(b)
  {
    forall row: Row<V> ensures multiset(a)[row] == multiset(b)[row] {
      if row in all {
        RowCount(all, a, row);
        RowCount(all, b, row);
      } else {
        assert row !in a && row !in b;
      }
    }
  }
}
