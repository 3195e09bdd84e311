/** Group-by results as mathematical objects: sums per key, independent of how the rows are split or ordered. */
module GroupBy {
  import opened Hashing
  import opened VectorizedAggregation

  /** Adds the payloads of the rows with key `k` to `start`, in row order. */
  function SumFrom<V>(add: (V, V) -> V, start: V, rows: seq<Row<V>>, k: Key): V {
    if rows == [] then start
    else
      var s := SumFrom(add, start, rows[..|rows| - 1], k);
      var last := rows[|rows| - 1];
      if last.key == k then add(s, last.payload) else s
  }

  /** The aggregate of one group. */
  function GroupSum<V>(zero: V, add: (V, V) -> V, rows: seq<Row<V>>, k: Key): V {
    SumFrom(add, zero, rows, k)
  }

  ghost predicate HasKey<V>(rows: seq<Row<V>>, k: Key) {
    exists i :: 0 <= i < |rows| && rows[i].key == k
  }

  function ValueOr<V>(m: map<Key, V>, k: Key, zero: V): V {
    if k in m then m[k] else zero
  }

  ghost predicate Monoid<V(!new)>(zero: V, add: (V, V) -> V) {
    && (forall a, b, c :: add(add(a, b), c) == add(a, add(b, c)))
    && (forall a :: add(zero, a) == a && add(a, zero) == a)
  }

  ghost predicate Commutative<V(!new)>(add: (V, V) -> V) {
    forall a, b :: add(a, b) == add(b, a)
  }

  lemma {:induction false} FoldValue<V>(m: map<Key, V>, zero: V, add: (V, V) -> V, rows: seq<Row<V>>, k: Key)
    ensures ValueOr(Fold(m, zero, add, rows), k, zero) == SumFrom(add, ValueOr(m, k, zero), rows, k)
  {
    if rows != [] {
      FoldValue(m, zero, add, rows[..|rows| - 1], k);
    }
  }

  lemma {:induction false} FoldKeys<V>(m: map<Key, V>, zero: V, add: (V, V) -> V, rows: seq<Row<V>>, k: Key)
    ensures k in Fold(m, zero, add, rows) <==> k in m || HasKey(rows, k)
  {
    if rows != [] {
      FoldKeys(m, zero, add, rows[..|rows| - 1], k);
      HasKeySnoc(rows, k);
    }
  }

  lemma HasKeySnoc<V>(rows: seq<Row<V>>, k: Key)
    requires rows != []
    ensures HasKey(rows, k) <==> HasKey(rows[..|rows| - 1], k) || rows[|rows| - 1].key == k
  {
    var init := rows[..|rows| - 1];
    if i :| 0 <= i < |rows| && rows[i].key == k {
      if i < |init| {
        assert init[i].key == k;
      }
    }
    if i :| 0 <= i < |init| && init[i].key == k {
      assert rows[i].key == k;
    }
  }

  /** The fold computes one sum per key. */
  lemma FoldIsGroupSum<V>(zero: V, add: (V, V) -> V, rows: seq<Row<V>>, k: Key)
    ensures k in Fold(map[], zero, add, rows) <==> HasKey(rows, k)
    ensures ValueOr(Fold(map[], zero, add, rows), k, zero) == GroupSum(zero, add, rows, k)
  {
    FoldValue(map[], zero, add, rows, k);
    FoldKeys(map[], zero, add, rows, k);
  }

  lemma {:induction false} SumWithoutKey<V>(add: (V, V) -> V, start: V, rows: seq<Row<V>>, k: Key)
    requires !HasKey(rows, k)
    ensures SumFrom(add, start, rows, k) == start
  {
    if rows != [] {
      HasKeySnoc(rows, k);
      SumWithoutKey(add, start, rows[..|rows| - 1], k);
    }
  }

  lemma {:induction false} SumConcat<V>(add: (V, V) -> V, start: V, a: seq<Row<V>>, b: seq<Row<V>>, k: Key)
    ensures SumFrom(add, start, a + b, k) == SumFrom(add, SumFrom(add, start, a, k), b, k)
    decreases |b|
  {
    if b == [] {
      assert a + b == a;
    } else {
      assert (a + b)[..|a + b| - 1] == a + b[..|b| - 1];
      SumConcat(add, start, a, b[..|b| - 1], k);
    }
  }

  /** Summing onto a start value is adding the sum. */
  lemma {:induction false} SumFromStart<V(!new)>(zero: V, add: (V, V) -> V, start: V, rows: seq<Row<V>>, k: Key)
    requires Monoid(zero, add)
    ensures SumFrom(add, start, rows, k) == add(start, GroupSum(zero, add, rows, k))
  {
    if rows != [] {
      SumFromStart(zero, add, start, rows[..|rows| - 1], k);
    }
  }

  /** With a commutative operation the order of the rows does not matter. */
  lemma {:induction false} GroupSumPermutation<V(!new)>(zero: V, add: (V, V) -> V, a: seq<Row<V>>, b: seq<Row<V>>, k: Key)
    requires Monoid(zero, add) && Commutative(add)
    requires multiset(a) == multiset(b)
    ensures GroupSum(zero, add, a, k) == GroupSum(zero, add, b, k)
    decreases |a|
  {
    assert |multiset(a)| == |a| && |multiset(b)| == |b|;
    if a != [] {
      var n := |a| - 1;
      var last := a[n];
      assert last in multiset(b);
      var i :| 0 <= i < |b| && b[i] == last;
      RemoveOne(a, n);
      RemoveOne(b, i);
      assert a[..n] + a[n + 1..] == a[..n];
      GroupSumPermutation(zero, add, a[..n], b[..i] + b[i + 1..], k);
      MoveToEnd(zero, add, b, i, k);
    }
  }

  lemma RemoveOne<A>(xs: seq<A>, i: nat)
    requires i < |xs|
    ensures multiset(xs[..i] + xs[i + 1..]) == multiset(xs) - multiset{xs[i]}
  {
    assert xs == xs[..i] + [xs[i]] + xs[i + 1..];
  }

  lemma MoveToEnd<V(!new)>(zero: V, add: (V, V) -> V, b: seq<Row<V>>, i: nat, k: Key)
    requires Monoid(zero, add) && Commutative(add) && i < |b|
    ensures var s := GroupSum(zero, add, b[..i] + b[i + 1..], k);
      GroupSum(zero, add, b, k) == if b[i].key == k then add(s, b[i].payload) else s
  {
    var before, after := GroupSum(zero, add, b[..i], k), GroupSum(zero, add, b[i + 1..], k);
    assert b == b[..i + 1] + b[i + 1..] && b[..i + 1][..i] == b[..i];
    SumConcat(add, zero, b[..i + 1], b[i + 1..], k);
    SumConcat(add, zero, b[..i], b[i + 1..], k);
    SumFromStart(zero, add, SumFrom(add, zero, b[..i + 1], k), b[i + 1..], k);
    SumFromStart(zero, add, before, b[i + 1..], k);
    if b[i].key == k {
      var p := b[i].payload;
      assert add(add(before, p), after) == add(before, add(p, after)) == add(before, add(after, p))
          == add(add(before, after), p);
    }
  }
}
