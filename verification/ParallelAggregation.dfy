/**
 * Parallel aggregation end to end: every thread aggregates its rows into a local table, then the workers merge the local
 * tables partition by partition. The results are compared with the naive group-by over all rows.
 */
module ParallelAggregation {
  import opened Hashing
  import opened ProbeChain
  import opened SharedTable
  import opened VectorizedAggregation
  import opened GroupBy
  import opened AggregationMerger

  /** The first `n` sequences one after the other. */
  function Joined<A>(parts: seq<seq<A>>, n: nat): seq<A>
    requires n <= |parts|
  {
    if n == 0 then [] else Joined(parts, n - 1) + parts[n - 1]
  }

  // ---------------------------------------------------------------------------------------------
  // What a worker reads from a local table
  // ---------------------------------------------------------------------------------------------

  /** A frozen table holds the groups `m`. This is what a valid hash table guarantees. */
  ghost predicate Holds<V(!new)>(t: Frozen<V>, zero: V, m: map<Key, V>) {
    t.WellFormed() && exists slotOf :: Indexed(t, zero, m, slotOf)
  }

  ghost predicate Indexed<V>(t: Frozen<V>, zero: V, m: map<Key, V>, slotOf: map<Key, nat>) {
    && t.WellFormed()
    && Index(t.hash, zero, |t.tags| - 1, t.tags, t.data, slotOf)
    && PayloadOf(t.data, slotOf) == m
  }

  /** A local table as the merge phase finds it. */
  method Freeze<V(!new)>(table: HashTable<V>) returns (t: Frozen<V>)
    requires table.Valid()
    ensures t.hash == table.hash && Holds(t, table.zero.payload, table.Contents())
  {
    t := Frozen(table.hash, table.tags[..], table.data[..]);
    assert Indexed(t, table.zero.payload, table.Contents(), table.slotOf);
  }

  /** `part` consists of the groups that live in the first `n` slots and belong to the worker, each once. */
  ghost predicate Groups<V>(t: Frozen<V>, m: map<Key, V>, slotOf: map<Key, nat>, id: nat, total: nat, n: nat, part: seq<Row<V>>)
    requires m.Keys == slotOf.Keys && total > 0
  {
    && DistinctKeys(part)
    && (forall j :: 0 <= j < |part| ==>
          var k := part[j].key; k in m && slotOf[k] < n && Mine(t.hash, id, total, k) && part[j].payload == m[k])
    && (forall k :: k in m && slotOf[k] < n && Mine(t.hash, id, total, k) ==> HasKey(part, k))
  }

  /** A partition consists of distinct groups of the table, with their payloads, and misses none of its own. */
  lemma PartitionOfIndex<V(!new)>(t: Frozen<V>, zero: V, m: map<Key, V>, slotOf: map<Key, nat>, id: nat, total: nat)
    requires Indexed(t, zero, m, slotOf) && total > 0
    ensures Groups(t, m, slotOf, id, total, |t.tags|, t.Share(id, total))
  {
    for n := 0 to |t.tags|
      invariant Groups(t, m, slotOf, id, total, n, Partition(t.hash, id, total, t.tags, t.data, n))
    {
      GroupsStep(t, zero, m, slotOf, id, total, n, Partition(t.hash, id, total, t.tags, t.data, n));
    }
  }

  lemma GroupsStep<V(!new)>(t: Frozen<V>, zero: V, m: map<Key, V>, slotOf: map<Key, nat>, id: nat, total: nat, n: nat,
                            before: seq<Row<V>>)
    requires Indexed(t, zero, m, slotOf) && total > 0 && n < |t.tags| && Groups(t, m, slotOf, id, total, n, before)
    ensures var take := Filled(t.tags[n]) && Mine(t.hash, id, total, t.data[n].key);
      Groups(t, m, slotOf, id, total, n + 1, before + if take then [t.data[n]] else [])
  {
    var take := Filled(t.tags[n]) && Mine(t.hash, id, total, t.data[n].key);
    var part := before + if take then [t.data[n]] else [];
    forall k | k in m && slotOf[k] < n + 1 && Mine(t.hash, id, total, k) ensures HasKey(part, k) {
      if slotOf[k] < n {
        var i :| 0 <= i < |before| && before[i].key == k;
        assert part[i].key == k;
      } else {
        assert part[|part| - 1].key == k;
      }
    }
  }

  /** Merging a partition adds exactly the worker's own groups of that table. */
  lemma SumOfShare<V(!new)>(t: Frozen<V>, zero: V, add: (V, V) -> V, m: map<Key, V>, id: nat, total: nat, start: V, k: Key)
    requires Holds(t, zero, m) && total > 0
    ensures DistinctKeys(t.Share(id, total))
    ensures HasKey(t.Share(id, total), k) <==> k in m && Mine(t.hash, id, total, k)
    ensures SumFrom(add, start, t.Share(id, total), k)
         == if k in m && Mine(t.hash, id, total, k) then add(start, m[k]) else start
  {
    var slotOf :| Indexed(t, zero, m, slotOf);
    PartitionOfIndex(t, zero, m, slotOf, id, total);
    var part := t.Share(id, total);
    if k in m && Mine(t.hash, id, total, k) {
      var j :| 0 <= j < |part| && part[j].key == k;
      SumDistinct(add, start, part, j);
    } else {
      SumWithoutKey(add, start, part, k);
    }
  }

  // ---------------------------------------------------------------------------------------------
  // The merges of one worker
  // ---------------------------------------------------------------------------------------------

  /** No merge of the worker doubles its target after the first key of that merge. */
  ghost predicate Room<V>(m: map<Key, V>, zero: V, add: (V, V) -> V, parts: seq<seq<Row<V>>>, n: nat, limit: nat)
    requires n <= |parts|
  {
    forall i :: 0 <= i < n ==> RoomAt(m, zero, add, parts, i, limit)
  }

  ghost predicate RoomAt<V>(m: map<Key, V>, zero: V, add: (V, V) -> V, parts: seq<seq<Row<V>>>, i: nat, limit: nat)
    requires i < |parts|
  {
    NoLateDoubling(MergedGroups(m, zero, add, parts, i, limit), zero, KeysOf(parts[i]), MergedFill(m, zero, add, parts, i, limit))
  }

  lemma {:induction false} FoldConcat<V>(m: map<Key, V>, zero: V, add: (V, V) -> V, a: seq<Row<V>>, b: seq<Row<V>>)
    ensures Fold(m, zero, add, a + b) == Fold(Fold(m, zero, add, a), zero, add, b)
    decreases |b|
  {
    if b == [] {
      assert a + b == a;
    } else {
      assert (a + b)[..|a + b| - 1] == a + b[..|b| - 1];
      FoldConcat(m, zero, add, a, b[..|b| - 1]);
    }
  }

  /** With room, the merges of a worker are one group-by over everything it merges. */
  lemma MergedExact<V>(m: map<Key, V>, zero: V, add: (V, V) -> V, parts: seq<seq<Row<V>>>, n: nat, limit: nat)
    requires n <= |parts| && 0 < limit && Room(m, zero, add, parts, n, limit)
    ensures MergedGroups(m, zero, add, parts, n, limit) == Fold(m, zero, add, Joined(parts, n))
  {
    for i := 0 to n
      invariant MergedGroups(m, zero, add, parts, i, limit) == Fold(m, zero, add, Joined(parts, i))
    {
      var merged, fill := MergedGroups(m, zero, add, parts, i, limit), MergedFill(m, zero, add, parts, i, limit);
      assert RoomAt(m, zero, add, parts, i, limit);
      MergeExact(merged, zero, add, parts[i], fill);
      FoldConcat(m, zero, add, Joined(parts, i), parts[i]);
    }
  }

  // ---------------------------------------------------------------------------------------------
  // End to end
  // ---------------------------------------------------------------------------------------------

  /** Local table `i` is the aggregate of the rows that thread `i` saw. */
  ghost predicate LocalAggregates<V(!new)>(tables: seq<Frozen<V>>, hash: Key -> Hash, zero: V, add: (V, V) -> V,
                                           inputs: seq<seq<Row<V>>>) {
    && |tables| == |inputs|
    && forall i :: 0 <= i < |tables| ==>
         tables[i].hash == hash && Holds(tables[i], zero, Fold(map[], zero, add, inputs[i]))
  }

  /** Merging its share of a local table, a worker adds up the rows behind it that are its own. */
  lemma ShareOfInput<V(!new)>(t: Frozen<V>, zero: V, add: (V, V) -> V, input: seq<Row<V>>, id: nat, total: nat, start: V, k: Key)
    requires Holds(t, zero, Fold(map[], zero, add, input)) && Monoid(zero, add) && total > 0
    ensures HasKey(t.Share(id, total), k) <==> Mine(t.hash, id, total, k) && HasKey(input, k)
    ensures SumFrom(add, start, t.Share(id, total), k)
         == if Mine(t.hash, id, total, k) then SumFrom(add, start, input, k) else start
  {
    SumOfShare(t, zero, add, Fold(map[], zero, add, input), id, total, start, k);
    FoldIsGroupSum(zero, add, input, k);
    if HasKey(input, k) {
      SumFromStart(zero, add, start, input, k);
    } else {
      SumWithoutKey(add, start, input, k);
    }
  }

  /** The partition of a worker, taken over all local tables, sums up to its part of the input. */
  lemma SharesAddUp<V(!new)>(tables: seq<Frozen<V>>, hash: Key -> Hash, zero: V, add: (V, V) -> V, inputs: seq<seq<Row<V>>>,
                             id: nat, total: nat, k: Key)
    requires LocalAggregates(tables, hash, zero, add, inputs) && Monoid(zero, add) && total > 0
    ensures var merged, all := Joined(Shares(tables, id, total), |tables|), Joined(inputs, |inputs|);
      && SumFrom(add, zero, merged, k) == (if Mine(hash, id, total, k) then GroupSum(zero, add, all, k) else zero)
      && (HasKey(merged, k) <==> Mine(hash, id, total, k) && HasKey(all, k))
  {
    var parts := Shares(tables, id, total);
    for n := 0 to |tables|
      invariant SumFrom(add, zero, Joined(parts, n), k)
             == if Mine(hash, id, total, k) then GroupSum(zero, add, Joined(inputs, n), k) else zero
      invariant HasKey(Joined(parts, n), k) <==> Mine(hash, id, total, k) && HasKey(Joined(inputs, n), k)
    {
      var merged, seen := Joined(parts, n), Joined(inputs, n);
      ShareOfInput(tables[n], zero, add, inputs[n], id, total, SumFrom(add, zero, merged, k), k);
      SumConcat(add, zero, merged, parts[n], k);
      SumConcat(add, zero, seen, inputs[n], k);
      HasKeyConcat(merged, parts[n], k);
      HasKeyConcat(seen, inputs[n], k);
    }
  }

  lemma HasKeyConcat<V>(a: seq<Row<V>>, b: seq<Row<V>>, k: Key)
    ensures HasKey(a + b, k) <==> HasKey(a, k) || HasKey(b, k)
  {
    if i :| 0 <= i < |a| && a[i].key == k {
      assert (a + b)[i].key == k;
    }
    if i :| 0 <= i < |b| && b[i].key == k {
      assert (a + b)[|a| + i].key == k;
    }
  }

  /** What worker `id` leaves in its own target. */
  ghost function WorkerResult<V>(tables: seq<Frozen<V>>, zero: V, add: (V, V) -> V, id: nat, total: nat, limit: nat): map<Key, V>
    requires AllWellFormed(tables) && total > 0
  {
    MergedGroups(map[], zero, add, Shares(tables, id, total), |tables|, limit)
  }

  ghost predicate WorkerHasRoom<V>(tables: seq<Frozen<V>>, zero: V, add: (V, V) -> V, id: nat, total: nat, limit: nat)
    requires AllWellFormed(tables) && total > 0
  {
    Room(map[], zero, add, Shares(tables, id, total), |tables|, limit)
  }

  /**
   * Main theorem: whatever way `rows` are split over the threads and ordered, each key lies in the target of exactly one
   * worker, the one for its hash, with the sum over all rows. Neither the split nor the order shows in the result.
   */
  lemma ParallelAggregationIsGroupBy<V(!new)>(tables: seq<Frozen<V>>, hash: Key -> Hash, zero: V, add: (V, V) -> V,
                                              inputs: seq<seq<Row<V>>>, rows: seq<Row<V>>, id: nat, total: nat, limit: nat,
                                              k: Key)
    requires LocalAggregates(tables, hash, zero, add, inputs)
    requires Monoid(zero, add) && Commutative(add)
    requires multiset(Joined(inputs, |inputs|)) == multiset(rows)
    requires total > 0 && 0 < limit && WorkerHasRoom(tables, zero, add, id, total, limit)
    ensures var result := WorkerResult(tables, zero, add, id, total, limit);
      && (k in result <==> HasKey(rows, k) && hash(k) % total == id)
      && (k in result ==> result[k] == GroupSum(zero, add, rows, k))
  {
    var n, parts := |tables|, Shares(tables, id, total);
    var all := Joined(inputs, n);
    MergedExact(map[], zero, add, parts, n, limit);
    FoldIsGroupSum(zero, add, Joined(parts, n), k);
    SharesAddUp(tables, hash, zero, add, inputs, id, total, k);
    GroupSumPermutation(zero, add, all, rows, k);
    HasKeyPermutation(all, rows, k);
    HasKeyPermutation(rows, all, k);
  }

  lemma HasKeyPermutation<V>(a: seq<Row<V>>, b: seq<Row<V>>, k: Key)
    requires multiset(a) == multiset(b)
    ensures HasKey(a, k) ==> HasKey(b, k)
  {
    if i :| 0 <= i < |a| && a[i].key == k {
      assert a[i] in multiset(b);
      var j :| 0 <= j < |b| && b[j] == a[i];
    }
  }

  // ---------------------------------------------------------------------------------------------
  // When there is room
  // ---------------------------------------------------------------------------------------------

  /** The target holds exactly the keys merged so far, whether contributions were lost or not. */
  lemma {:induction false} MergedKeys<V>(zero: V, add: (V, V) -> V, parts: seq<seq<Row<V>>>, n: nat, limit: nat, k: Key)
    requires n <= |parts|
    ensures k in MergedGroups(map[], zero, add, parts, n, limit) <==> HasKey(Joined(parts, n), k)
  {
    if n != 0 {
      MergedKeys(zero, add, parts, n - 1, limit, k);
      OutcomeKeys(MergedGroups(map[], zero, add, parts, n - 1, limit), zero, add, parts[n - 1],
                  MergedFill(map[], zero, add, parts, n - 1, limit), k);
      HasKeyConcat(Joined(parts, n - 1), parts[n - 1], k);
    }
  }

  /** Keys from a small set never double a target. */
  lemma FewGroupsFit<V>(m: map<Key, V>, zero: V, part: seq<Row<V>>, keys: set<Key>, limit: nat)
    requires |keys| < limit && m.Keys <= keys
    requires forall j :: 0 <= j < |part| ==> part[j].key in keys
    ensures NoLateDoubling(m, zero, KeysOf(part), limit)
  {
    var ks := KeysOf(part);
    if |ks| > 1 {
      var before := ks[..|ks| - 1];
      var groups := WithGroups(m, zero, before);
      GroupsArePadding(m, zero, before);
      forall k | k in before ensures k in keys {
        var j :| 0 <= j < |before| && before[j] == k;
        assert k == part[j].key;
      }
      SubsetSize(groups.Keys, keys);
      assert |groups| == |groups.Keys|;
    }
  }

  /** A target with a fill limit above the number of distinct keys of its partition always has room. */
  lemma FewKeysFit<V>(zero: V, add: (V, V) -> V, parts: seq<seq<Row<V>>>, keys: set<Key>, limit: nat)
    requires |keys| < limit
    requires forall i, j :: 0 <= i < |parts| && 0 <= j < |parts[i]| ==> parts[i][j].key in keys
    ensures Room(map[], zero, add, parts, |parts|, limit)
  {
    forall i | 0 <= i < |parts| ensures RoomAt(map[], zero, add, parts, i, limit) {
      var m := MergedGroups(map[], zero, add, parts, i, limit);
      forall k | k in m ensures k in keys {
        MergedKeys(zero, add, parts, i, limit, k);
        JoinedKeys(parts, keys, i, k);
      }
      FewGroupsFit(m, zero, parts[i], keys, MergedFill(map[], zero, add, parts, i, limit));
    }
  }

  lemma {:induction false} JoinedKeys<V>(parts: seq<seq<Row<V>>>, keys: set<Key>, n: nat, k: Key)
    requires forall i, j :: 0 <= i < |parts| && 0 <= j < |parts[i]| ==> parts[i][j].key in keys
    requires n <= |parts| && HasKey(Joined(parts, n), k)
    ensures k in keys
  {
    if n != 0 {
      HasKeyConcat(Joined(parts, n - 1), parts[n - 1], k);
      if HasKey(Joined(parts, n - 1), k) {
        JoinedKeys(parts, keys, n - 1, k);
      }
    }
  }

  // ---------------------------------------------------------------------------------------------
  // Exactly when counts come out right
  // ---------------------------------------------------------------------------------------------

  ghost predicate PositiveGroups(parts: seq<seq<Row<int>>>) {
    forall i :: 0 <= i < |parts| ==>
      DistinctKeys(parts[i]) && forall j :: 0 <= j < |parts[i]| ==> parts[i][j].payload > 0
  }

  /** One more merge never makes up for what an earlier one lost. */
  lemma DeficitStays(m: map<Key, int>, full: map<Key, int>, part: seq<Row<int>>, limit: nat, k: Key)
    requires DistinctKeys(part) && forall j :: 0 <= j < |part| ==> part[j].payload > 0
    ensures ValueOr(Fold(full, 0, Plus, part), k, 0) - ValueOr(full, k, 0)
         >= ValueOr(MergeOutcome(m, 0, Plus, part, limit), k, 0) - ValueOr(m, k, 0)
  {
    FoldValue(full, 0, Plus, part, k);
    if HasKey(part, k) {
      var j :| 0 <= j < |part| && part[j].key == k;
      OutcomeAt(m, 0, Plus, part, limit, j);
      SumDistinct(Plus, ValueOr(full, k, 0), part, j);
    } else {
      OutcomeElsewhere(m, 0, Plus, part, limit, k);
      SumWithoutKey(Plus, ValueOr(full, k, 0), part, k);
    }
  }

  /** By how much the group of `k` is too small after `n` merges. */
  ghost function Deficit(parts: seq<seq<Row<int>>>, n: nat, limit: nat, k: Key): int
    requires n <= |parts|
  {
    ValueOr(Fold(map[], 0, Plus, Joined(parts, n)), k, 0) - ValueOr(MergedGroups(map[], 0, Plus, parts, n, limit), k, 0)
  }

  lemma {:induction false} DeficitGrows(parts: seq<seq<Row<int>>>, i: nat, n: nat, limit: nat, k: Key)
    requires PositiveGroups(parts) && i <= n <= |parts|
    ensures Deficit(parts, i, limit, k) <= Deficit(parts, n, limit, k)
    decreases n
  {
    if i < n {
      DeficitGrows(parts, i, n - 1, limit, k);
      FoldConcat(map[], 0, Plus, Joined(parts, n - 1), parts[n - 1]);
      DeficitStays(MergedGroups(map[], 0, Plus, parts, n - 1, limit), Fold(map[], 0, Plus, Joined(parts, n - 1)), parts[n - 1],
                   MergedFill(map[], 0, Plus, parts, n - 1, limit), k);
    }
  }

  /** A merge without room leaves its first group short. */
  lemma LateDoublingLoses(m: map<Key, int>, full: map<Key, int>, part: seq<Row<int>>, limit: nat)
    requires DistinctKeys(part) && forall j :: 0 <= j < |part| ==> part[j].payload > 0
    requires 0 < limit && !NoLateDoubling(m, 0, KeysOf(part), limit)
    requires ValueOr(m, part[0].key, 0) <= ValueOr(full, part[0].key, 0)
    ensures ValueOr(MergeOutcome(m, 0, Plus, part, limit), part[0].key, 0) < ValueOr(Fold(full, 0, Plus, part), part[0].key, 0)
  {
    NothingStaleIff(m, 0, part, limit);
    OutcomeAt(m, 0, Plus, part, limit, 0);
    FoldValue(full, 0, Plus, part, part[0].key);
    SumDistinct(Plus, ValueOr(full, part[0].key, 0), part, 0);
  }

  /** After a merge without room, the first group of that merge is short for good. */
  lemma LostForGood(parts: seq<seq<Row<int>>>, i: nat, limit: nat)
    requires PositiveGroups(parts) && i < |parts| && 0 < limit
    requires !RoomAt(map[], 0, Plus, parts, i, limit)
    ensures |parts[i]| > 0 && Deficit(parts, |parts|, limit, parts[i][0].key) > 0
  {
    var k := parts[i][0].key;
    DeficitGrows(parts, 0, i, limit, k);
    FoldConcat(map[], 0, Plus, Joined(parts, i), parts[i]);
    LateDoublingLoses(MergedGroups(map[], 0, Plus, parts, i, limit), Fold(map[], 0, Plus, Joined(parts, i)), parts[i],
                      MergedFill(map[], 0, Plus, parts, i, limit));
    assert Deficit(parts, i + 1, limit, k) > 0;
    DeficitGrows(parts, i + 1, |parts|, limit, k);
  }

  /**
   * Exact condition, for a whole worker: with counts, or any other positive contributions, the merged groups are the true
   * ones if and only if every merge had room. One late doubling anywhere leaves some group too small.
   */
  lemma CountsExactIff(parts: seq<seq<Row<int>>>, limit: nat)
    requires PositiveGroups(parts) && 0 < limit
    ensures MergedGroups(map[], 0, Plus, parts, |parts|, limit) == Fold(map[], 0, Plus, Joined(parts, |parts|))
       <==> Room(map[], 0, Plus, parts, |parts|, limit)
  {
    if Room(map[], 0, Plus, parts, |parts|, limit) {
      MergedExact(map[], 0, Plus, parts, |parts|, limit);
    } else {
      var i :| 0 <= i < |parts| && !RoomAt(map[], 0, Plus, parts, i, limit);
      LostForGood(parts, i, limit);
    }
  }
}
