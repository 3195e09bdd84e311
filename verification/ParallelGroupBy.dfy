/**
 * An aggregation from its chunks to its result: every thread runs its chunks through its own table, fused or vectorised as it
 * comes, the merge tables are sized by the groups found, and every worker merges its partition of all tables.
 */
module ParallelGroupBy {
  import opened Hashing
  import opened ProbeChain
  import opened Products
  import opened SharedTable
  import opened VectorizedAggregation
  import opened GroupBy
  import opened AggregationMerger
  import opened ParallelAggregation
  import opened Sizing

  /** The rows of a chunk, and whether they are interpreted or run through compiled code. */
  datatype Chunk<V> = Chunk(rows: seq<Row<V>>, vectorised: bool)

  /** All rows of the first `n` chunks. */
  function RowsOf<V>(chunks: seq<Chunk<V>>, n: nat): seq<Row<V>>
    requires n <= |chunks|
  {
    if n == 0 then [] else RowsOf(chunks, n - 1) + chunks[n - 1].rows
  }

  function InputOf<V>(chunks: seq<Chunk<V>>): seq<Row<V>> {
    RowsOf(chunks, |chunks|)
  }

  /** What each of the threads reads. */
  function Inputs<V>(work: seq<seq<Chunk<V>>>): (inputs: seq<seq<Row<V>>>)
    ensures |inputs| == |work| && forall i :: 0 <= i < |work| ==> inputs[i] == InputOf(work[i])
  {
    if work == [] then [] else Inputs(work[..|work| - 1]) + [InputOf(work[|work| - 1])]
  }

  /** The groups after the first `n` chunks. */
  ghost function AfterChunks<V>(m: map<Key, V>, zero: V, add: (V, V) -> V, chunks: seq<Chunk<V>>, n: nat): map<Key, V>
    requires n <= |chunks|
  {
    if n == 0 then m else Fold(AfterChunks(m, zero, add, chunks, n - 1), zero, add, chunks[n - 1].rows)
  }

  lemma {:induction false} ChunksAreRows<V>(m: map<Key, V>, zero: V, add: (V, V) -> V, chunks: seq<Chunk<V>>, n: nat)
    requires n <= |chunks|
    ensures AfterChunks(m, zero, add, chunks, n) == Fold(m, zero, add, RowsOf(chunks, n))
  {
    if n != 0 {
      ChunksAreRows(m, zero, add, chunks, n - 1);
      FoldConcat(m, zero, add, RowsOf(chunks, n - 1), chunks[n - 1].rows);
    }
  }

  method RunChunk<V(!new)>(table: HashTable<V>, chunk: Chunk<V>, add: (V, V) -> V)
    requires table.Valid()
    modifies table, table.tags, table.data
    ensures table.Valid()
    ensures table.Contents() == Fold(old(table.Contents()), table.zero.payload, add, chunk.rows)
    ensures table.tags == old(table.tags) || fresh(table.tags)
    ensures table.data == old(table.data) || fresh(table.data)
  {
    if chunk.vectorised {
      RunVectorised(table, chunk.rows, add);
    } else {
      RunFused(table, chunk.rows, add);
    }
  }

  /** All chunks of a thread in order, in any mixture of the two backends. */
  method RunChunks<V(!new)>(table: HashTable<V>, chunks: seq<Chunk<V>>, add: (V, V) -> V)
    requires table.Valid()
    modifies table, table.tags, table.data
    ensures table.Valid()
    ensures table.Contents() == AfterChunks(old(table.Contents()), table.zero.payload, add, chunks, |chunks|)
  {
    ghost var start, zero := table.Contents(), table.zero.payload;
    ghost var groups := start;
    var i := 0;
    while i < |chunks|
      invariant 0 <= i <= |chunks| && table.Valid()
      invariant table.Contents() == groups == AfterChunks(start, zero, add, chunks, i)
      invariant table.tags == old(table.tags) || fresh(table.tags)
      invariant table.data == old(table.data) || fresh(table.data)
    {
      RunChunk(table, chunks[i], add);
      groups := Fold(groups, zero, add, chunks[i].rows);
      i := i + 1;
    }
  }

  /** One thread, its local table as the merge phase finds it, and the number of its groups. */
  method Preaggregate<V(!new)>(hash: Key -> Hash, zero: Row<V>, slots: nat, chunks: seq<Chunk<V>>, add: (V, V) -> V)
    returns (t: Frozen<V>, size: nat)
    requires HashTable<V>.ValidSize(slots)
    ensures IsLocal(t, hash, zero.payload, add, InputOf(chunks))
    ensures size == |Fold(map[], zero.payload, add, InputOf(chunks))|
  {
    var table := new HashTable(hash, zero, slots);
    RunChunks(table, chunks, add);
    ChunksAreRows(map[], zero.payload, add, chunks, |chunks|);
    table.ContentsSize();
    size := table.inserted;
    t := Freeze(table);
  }

  /** The groups of all local tables together; a key that several threads saw counts for each of them. */
  ghost function GroupsInAll<V>(zero: V, add: (V, V) -> V, inputs: seq<seq<Row<V>>>, n: nat): nat
    requires n <= |inputs|
  {
    if n == 0 then 0 else GroupsInAll(zero, add, inputs, n - 1) + |Fold(map[], zero, add, inputs[n - 1])|
  }

  ghost predicate IsLocal<V(!new)>(t: Frozen<V>, hash: Key -> Hash, zero: V, add: (V, V) -> V, input: seq<Row<V>>) {
    t.hash == hash && Holds(t, zero, Fold(map[], zero, add, input))
  }

  /** The first `n` local tables are there. */
  ghost predicate AreLocal<V(!new)>(tables: seq<Frozen<V>>, hash: Key -> Hash, zero: V, add: (V, V) -> V,
                                    inputs: seq<seq<Row<V>>>, n: nat)
  {
    |tables| == n <= |inputs| && forall j :: 0 <= j < n ==> IsLocal(tables[j], hash, zero, add, inputs[j])
  }

  lemma OneMoreLocal<V(!new)>(tables: seq<Frozen<V>>, hash: Key -> Hash, zero: V, add: (V, V) -> V,
                              inputs: seq<seq<Row<V>>>, n: nat, t: Frozen<V>)
    requires AreLocal(tables, hash, zero, add, inputs, n) && n < |inputs| && IsLocal(t, hash, zero, add, inputs[n])
    ensures AreLocal(tables + [t], hash, zero, add, inputs, n + 1)
  {
    forall j | 0 <= j < n + 1 ensures IsLocal((tables + [t])[j], hash, zero, add, inputs[j]) {
      if j < n {
        assert (tables + [t])[j] == tables[j];
        assert IsLocal(tables[j], hash, zero, add, inputs[j]);
      }
    }
  }

  method PreaggregateAll<V(!new)>(hash: Key -> Hash, zero: Row<V>, slots: nat, work: seq<seq<Chunk<V>>>, add: (V, V) -> V)
    returns (tables: seq<Frozen<V>>, totalKeys: nat)
    requires HashTable<V>.ValidSize(slots)
    ensures AreLocal(tables, hash, zero.payload, add, Inputs(work), |work|)
    ensures totalKeys == GroupsInAll(zero.payload, add, Inputs(work), |work|)
  {
    tables, totalKeys := [], 0;
    ghost var inputs := Inputs(work);
    var i := 0;
    while i < |work|
      invariant 0 <= i <= |work| && AreLocal(tables, hash, zero.payload, add, inputs, i)
      invariant totalKeys == GroupsInAll(zero.payload, add, inputs, i)
    {
      var t, size := Preaggregate(hash, zero, slots, work[i], add);
      OneMoreLocal(tables, hash, zero.payload, add, inputs, i, t);
      tables, totalKeys := tables + [t], totalKeys + size;
      i := i + 1;
    }
  }

  /** One worker of the merge phase, and its target as the readers find it. */
  method MergeWorker<V(!new)>(tables: seq<Frozen<V>>, hash: Key -> Hash, zero: Row<V>, slots: nat, id: nat, total: nat,
                              adds: seq<(V, V) -> V>, ghost add: (V, V) -> V)
    returns (t: Frozen<V>)
    requires HashTable<V>.ValidSize(slots) && total > 0 && AllWellFormed(tables) && AllDistinct(Shares(tables, id, total))
    requires Splits(adds, add)
    ensures t.hash == hash && Holds(t, zero.payload, WorkerResult(tables, zero.payload, add, id, total, slots / 2))
  {
    var target := new HashTable(hash, zero, slots);
    MergeTables(tables, target, id, total, adds, add);
    t := Freeze(target);
  }

  /** The part of the group-by that worker `id` is responsible for: its keys, each with the sum over all rows. */
  ghost predicate IsPart<V(!new)>(t: Frozen<V>, hash: Key -> Hash, zero: V, add: (V, V) -> V, rows: seq<Row<V>>, id: nat, total: nat)
    requires total > 0
  {
    exists m :: Holds(t, zero, m) && IsGroupByOf(m, hash, zero, add, rows, id, total)
  }

  ghost predicate IsGroupByOf<V>(m: map<Key, V>, hash: Key -> Hash, zero: V, add: (V, V) -> V, rows: seq<Row<V>>, id: nat, total: nat)
    requires total > 0
  {
    forall k :: (k in m <==> HasKey(rows, k) && hash(k) % total == id) && (k in m ==> m[k] == GroupSum(zero, add, rows, k))
  }

  /** The distinct keys of a worker. */
  ghost function KeysOfWorker<V>(rows: seq<Row<V>>, hash: Key -> Hash, id: nat, total: nat): set<Key>
    requires total > 0
  {
    set r | r in rows && hash(r.key) % total == id :: r.key
  }

  lemma LocalsAggregate<V(!new)>(tables: seq<Frozen<V>>, hash: Key -> Hash, zero: V, add: (V, V) -> V, inputs: seq<seq<Row<V>>>)
    requires AreLocal(tables, hash, zero, add, inputs, |inputs|)
    ensures LocalAggregates(tables, hash, zero, add, inputs) && AllWellFormed(tables)
  {
    forall i | 0 <= i < |tables|
      ensures tables[i].hash == hash && Holds(tables[i], zero, Fold(map[], zero, add, inputs[i]))
    {
      assert IsLocal(tables[i], hash, zero, add, inputs[i]);
    }
  }

  ghost predicate IsTarget<V(!new)>(t: Frozen<V>, tables: seq<Frozen<V>>, hash: Key -> Hash, zero: V, add: (V, V) -> V, id: nat,
                                    total: nat, limit: nat)
    requires AllWellFormed(tables) && total > 0
  {
    t.hash == hash && Holds(t, zero, WorkerResult(tables, zero, add, id, total, limit))
  }

  ghost predicate AreTargets<V(!new)>(targets: seq<Frozen<V>>, tables: seq<Frozen<V>>, hash: Key -> Hash, zero: V,
                                      add: (V, V) -> V, n: nat, total: nat, limit: nat)
    requires AllWellFormed(tables) && total > 0
  {
    |targets| == n && forall id :: 0 <= id < n ==> IsTarget(targets[id], tables, hash, zero, add, id, total, limit)
  }

  lemma OneMoreTarget<V(!new)>(targets: seq<Frozen<V>>, tables: seq<Frozen<V>>, hash: Key -> Hash, zero: V, add: (V, V) -> V,
                               n: nat, total: nat, limit: nat, t: Frozen<V>)
    requires AllWellFormed(tables) && total > 0 && AreTargets(targets, tables, hash, zero, add, n, total, limit)
    requires IsTarget(t, tables, hash, zero, add, n, total, limit)
    ensures AreTargets(targets + [t], tables, hash, zero, add, n + 1, total, limit)
  {
    forall id | 0 <= id < n + 1 ensures IsTarget((targets + [t])[id], tables, hash, zero, add, id, total, limit) {
      if id < n {
        assert (targets + [t])[id] == targets[id];
        assert IsTarget(targets[id], tables, hash, zero, add, id, total, limit);
      }
    }
  }

  method MergeAll<V(!new)>(tables: seq<Frozen<V>>, hash: Key -> Hash, zero: Row<V>, slots: nat, total: nat,
                           adds: seq<(V, V) -> V>, ghost add: (V, V) -> V)
    returns (targets: seq<Frozen<V>>)
    requires HashTable<V>.ValidSize(slots) && total > 0 && AllWellFormed(tables) && Splits(adds, add)
    requires forall id :: 0 <= id < total ==> AllDistinct(Shares(tables, id, total))
    ensures AreTargets(targets, tables, hash, zero.payload, add, total, total, slots / 2)
  {
    targets := [];
    var id := 0;
    while id < total
      invariant 0 <= id <= total && AreTargets(targets, tables, hash, zero.payload, add, id, total, slots / 2)
    {
      var t := MergeWorker(tables, hash, zero, slots, id, total, adds, add);
      OneMoreTarget(targets, tables, hash, zero.payload, add, id, total, slots / 2, t);
      targets := targets + [t];
      id := id + 1;
    }
  }

  /** A worker with fewer than 1.2 times the distinct keys of an even split, or the only one, for whom there is no merge. */
  ghost predicate Balanced<V>(rows: seq<Row<V>>, hash: Key -> Hash, totalKeys: nat, id: nat, total: nat)
    requires total > 0
  {
    total == 1 || 5 * (|KeysOfWorker(rows, hash, id, total)| + 1) <= 6 * Expected(totalKeys, total)
  }

  ghost predicate BalancedParts<V(!new)>(result: seq<Frozen<V>>, hash: Key -> Hash, zero: V, add: (V, V) -> V, rows: seq<Row<V>>,
                                         totalKeys: nat)
  {
    forall id :: 0 <= id < |result| ==>
      Balanced(rows, hash, totalKeys, id, |result|) ==> IsPart(result[id], hash, zero, add, rows, id, |result|)
  }

  /** The merge phase. If there is only one local table, then there is nothing to merge. */
  method MergePhase<V(!new)>(tables: seq<Frozen<V>>, hash: Key -> Hash, zero: Row<V>, word: nat, totalKeys: nat,
                             adds: seq<(V, V) -> V>, ghost add: (V, V) -> V, ghost inputs: seq<seq<Row<V>>>,
                             ghost rows: seq<Row<V>>)
    returns (result: seq<Frozen<V>>)
    requires |tables| > 0 && Splits(adds, add) && AllWellFormed(tables) && LocalAggregates(tables, hash, zero.payload, add, inputs)
    requires multiset(Joined(inputs, |inputs|)) == multiset(rows) && MergeSizeInRange(word, Expected(totalKeys, |tables|))
    ensures |result| == |tables|
    ensures Monoid(zero.payload, add) && Commutative(add) ==>
      BalancedParts(result, hash, zero.payload, add, rows, totalKeys)
  {
    if |tables| == 1 {
      result := tables;
      if Monoid(zero.payload, add) && Commutative(add) {
        SingleTable(tables, hash, zero.payload, add, inputs, rows);
      }
    } else {
      LocalsDistinct(tables, hash, zero.payload, add, inputs);
      MergeTableSize(word, Expected(totalKeys, |tables|));
      result := MergeAll(tables, hash, zero, MergeSlots(word, Expected(totalKeys, |tables|)), |tables|, adds, add);
      if Monoid(zero.payload, add) && Commutative(add) {
        TargetsArePart(result, tables, hash, zero.payload, add, inputs, rows, totalKeys, word);
      }
    }
  }

  /**
   * Main theorem, on the whole of an aggregation: however the rows are split into chunks, spread over the threads, ordered, and
   * run by the two backends, every balanced worker ends up with its part of the group-by over all rows.
   */
  method AggregateInParallel<V(!new)>(hash: Key -> Hash, zero: Row<V>, startSlots: nat, word: nat, work: seq<seq<Chunk<V>>>,
                                      add: (V, V) -> V, adds: seq<(V, V) -> V>, ghost rows: seq<Row<V>>)
    returns (result: seq<Frozen<V>>)
    requires HashTable<V>.ValidSize(startSlots) && |work| > 0 && Splits(adds, add)
    requires multiset(Joined(Inputs(work), |work|)) == multiset(rows)
    requires MergeSizeInRange(word, Expected(GroupsInAll(zero.payload, add, Inputs(work), |work|), |work|))
    ensures |result| == |work|
    ensures Monoid(zero.payload, add) && Commutative(add) ==>
      BalancedParts(result, hash, zero.payload, add, rows,
                    GroupsInAll(zero.payload, add, Inputs(work), |work|))
  {
    var tables, totalKeys := PreaggregateAll(hash, zero, startSlots, work, add);
    LocalsAggregate(tables, hash, zero.payload, add, Inputs(work));
    result := MergePhase(tables, hash, zero, word, totalKeys, adds, add, Inputs(work), rows);
  }

  lemma LocalsDistinct<V(!new)>(tables: seq<Frozen<V>>, hash: Key -> Hash, zero: V, add: (V, V) -> V, inputs: seq<seq<Row<V>>>)
    requires LocalAggregates(tables, hash, zero, add, inputs) && AllWellFormed(tables) && |tables| > 0
    ensures forall id :: 0 <= id < |tables| ==> AllDistinct(Shares(tables, id, |tables|))
  {
    forall id, i | 0 <= id < |tables| && 0 <= i < |tables| ensures DistinctKeys(tables[i].Share(id, |tables|)) {
      ShareDistinct(tables[i], zero, Fold(map[], zero, add, inputs[i]), id, |tables|);
    }
  }

  lemma ShareDistinct<V(!new)>(t: Frozen<V>, zero: V, m: map<Key, V>, id: nat, total: nat)
    requires Holds(t, zero, m) && total > 0
    ensures DistinctKeys(t.Share(id, total))
  {
    var slotOf :| Indexed(t, zero, m, slotOf);
    PartitionOfIndex(t, zero, m, slotOf, id, total);
  }

  lemma SingleTable<V(!new)>(tables: seq<Frozen<V>>, hash: Key -> Hash, zero: V, add: (V, V) -> V, inputs: seq<seq<Row<V>>>,
                             rows: seq<Row<V>>)
    requires LocalAggregates(tables, hash, zero, add, inputs) && |inputs| == 1
    requires Monoid(zero, add) && Commutative(add) && multiset(Joined(inputs, 1)) == multiset(rows)
    ensures IsPart(tables[0], hash, zero, add, rows, 0, 1)
  {
    var m := Fold(map[], zero, add, inputs[0]);
    assert Joined(inputs, 0) == [] && Joined(inputs, 1) == inputs[0];
    forall k ensures k in m <==> HasKey(rows, k)
             ensures k in m ==> m[k] == GroupSum(zero, add, rows, k)
    {
      FoldIsGroupSum(zero, add, inputs[0], k);
      GroupSumPermutation(zero, add, inputs[0], rows, k);
      HasKeyPermutation(inputs[0], rows, k);
      HasKeyPermutation(rows, inputs[0], k);
    }
    assert IsGroupByOf(m, hash, zero, add, rows, 0, 1);
  }

  lemma TargetsArePart<V(!new)>(targets: seq<Frozen<V>>, tables: seq<Frozen<V>>, hash: Key -> Hash, zero: V, add: (V, V) -> V,
                                inputs: seq<seq<Row<V>>>, rows: seq<Row<V>>, totalKeys: nat, word: nat)
    requires LocalAggregates(tables, hash, zero, add, inputs) && AllWellFormed(tables) && |inputs| > 1
    requires Monoid(zero, add) && Commutative(add) && multiset(Joined(inputs, |inputs|)) == multiset(rows)
    requires MergeSizeInRange(word, Expected(totalKeys, |inputs|))
    requires AreTargets(targets, tables, hash, zero, add, |inputs|, |inputs|, MergeSlots(word, Expected(totalKeys, |inputs|)) / 2)
    ensures BalancedParts(targets, hash, zero, add, rows, totalKeys)
  {
    var total, limit: nat := |inputs|, MergeSlots(word, Expected(totalKeys, |inputs|)) / 2;
    forall id | 0 <= id < total && Balanced(rows, hash, totalKeys, id, total)
      ensures IsPart(targets[id], hash, zero, add, rows, id, total)
    {
      assert IsTarget(targets[id], tables, hash, zero, add, id, total, limit);
      BalancedPart(tables, hash, zero, add, inputs, rows, id, totalKeys, word);
    }
  }

  lemma BalancedPart<V(!new)>(tables: seq<Frozen<V>>, hash: Key -> Hash, zero: V, add: (V, V) -> V, inputs: seq<seq<Row<V>>>,
                              rows: seq<Row<V>>, id: nat, totalKeys: nat, word: nat)
    requires LocalAggregates(tables, hash, zero, add, inputs) && AllWellFormed(tables) && |inputs| > 1
    requires Monoid(zero, add) && Commutative(add) && multiset(Joined(inputs, |inputs|)) == multiset(rows)
    requires MergeSizeInRange(word, Expected(totalKeys, |inputs|)) && Balanced(rows, hash, totalKeys, id, |inputs|)
    ensures IsGroupByOf(WorkerResult(tables, zero, add, id, |inputs|, MergeSlots(word, Expected(totalKeys, |inputs|)) / 2),
                        hash, zero, add, rows, id, |inputs|)
  {
    var keys := KeysOfWorker(rows, hash, id, |inputs|);
    forall k {
      BalancedMergeIsGroupBy(tables, hash, zero, add, inputs, rows, id, |inputs|, keys, totalKeys, word, k);
    }
  }
}
