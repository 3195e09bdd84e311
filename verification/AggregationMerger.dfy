/**
 * Merging the thread-local aggregation tables. Every worker owns the groups of one hash partition: it walks all local
 * tables, creates its groups in its own target table while collecting pairs of source and target pointers, and then
 * adds every source payload to its target. Unlike the vectorised executor, the merger does not collect its pointers
 * again after the target table doubled, so that the exact condition under which a merge loses nothing is part of the
 * results.
 */
module AggregationMerger {
  import opened Options
  import opened Hashing
  import opened ProbeChain
  import opened SharedTable
  import opened VectorizedAggregation
  import opened GroupBy

  // ---------------------------------------------------------------------------------------------
  // What a merge does, and when that is what it should do
  // ---------------------------------------------------------------------------------------------

  /** How many of the first `n` collected pointers a later doubling has invalidated. */
  ghost function Stale<V>(m: map<Key, V>, zero: V, keys: seq<Key>, n: nat, maxFill: nat): (stale: nat)
    requires n <= |keys|
    ensures stale <= n
  {
    if n == 0 then 0
    else if GroupCount(m, zero, keys, n - 1) >= FillAfter(m, zero, keys, n - 1, maxFill) then n - 1
    else Stale(m, zero, keys, n - 1, maxFill)
  }

  ghost function StaleRows<V>(m: map<Key, V>, zero: V, part: seq<Row<V>>, maxFill: nat): (stale: nat)
    ensures stale <= |part|
  {
    Stale(m, zero, KeysOf(part), |part|, maxFill)
  }

  /** All groups exist afterwards, but the rows behind stale pointers were added to memory nobody reads any more. */
  ghost function MergeOutcome<V>(m: map<Key, V>, zero: V, add: (V, V) -> V, part: seq<Row<V>>, maxFill: nat): map<Key, V> {
    Fold(WithGroups(m, zero, KeysOf(part)), zero, add, part[StaleRows(m, zero, part, maxFill)..])
  }

  lemma {:induction false} SumDistinct<V>(add: (V, V) -> V, start: V, rows: seq<Row<V>>, j: nat)
    requires DistinctKeys(rows) && j < |rows|
    ensures SumFrom(add, start, rows, rows[j].key) == add(start, rows[j].payload)
  {
    var init := rows[..|rows| - 1];
    if j < |init| {
      SumDistinct(add, start, init, j);
      assert init[j] == rows[j];
    } else {
      forall i | 0 <= i < |init| ensures init[i].key != rows[j].key {
        assert init[i] == rows[i];
      }
      SumWithoutKey(add, start, init, rows[j].key);
    }
  }

  lemma GroupValue<V>(m: map<Key, V>, zero: V, keys: seq<Key>, k: Key)
    ensures ValueOr(WithGroups(m, zero, keys), k, zero) == ValueOr(m, k, zero)
    ensures k in WithGroups(m, zero, keys) <==> k in m || k in keys
  {
    GroupsArePadding(m, zero, keys);
  }

  lemma KeyOfRow<V>(rows: seq<Row<V>>, k: Key)
    ensures k in KeysOf(rows) <==> HasKey(rows, k)
  {
    if i :| 0 <= i < |rows| && rows[i].key == k {
      assert KeysOf(rows)[i] == k;
    }
  }

  lemma SuffixHas<V>(rows: seq<Row<V>>, from: nat, k: Key)
    requires from <= |rows| && HasKey(rows[from..], k)
    ensures HasKey(rows, k)
  {
    var i :| 0 <= i < |rows[from..]| && rows[from..][i].key == k;
    assert rows[from + i].key == k;
  }

  lemma SuffixLacks<V>(rows: seq<Row<V>>, from: nat, j: nat)
    requires DistinctKeys(rows) && j < from <= |rows|
    ensures !HasKey(rows[from..], rows[j].key)
  {
    forall i | 0 <= i < |rows[from..]| ensures rows[from..][i].key != rows[j].key {
      assert rows[from..][i] == rows[from + i];
    }
  }

  lemma SuffixDistinct<V>(rows: seq<Row<V>>, from: nat)
    requires DistinctKeys(rows) && from <= |rows|
    ensures DistinctKeys(rows[from..])
  {
    forall i, j | 0 <= i < j < |rows| - from ensures rows[from..][i].key != rows[from..][j].key {
      assert rows[from..][i] == rows[from + i] && rows[from..][j] == rows[from + j];
    }
  }

  /** What the merge leaves in the group of row `j`: its contribution arrived iff its pointer was not stale. */
  lemma OutcomeAt<V>(m: map<Key, V>, zero: V, add: (V, V) -> V, part: seq<Row<V>>, maxFill: nat, j: nat)
    requires DistinctKeys(part) && j < |part|
    ensures var v := ValueOr(m, part[j].key, zero);
      ValueOr(MergeOutcome(m, zero, add, part, maxFill), part[j].key, zero)
      == if j < StaleRows(m, zero, part, maxFill) then v else add(v, part[j].payload)
  {
    var stale, k := StaleRows(m, zero, part, maxFill), part[j].key;
    GroupValue(m, zero, KeysOf(part), k);
    FoldValue(WithGroups(m, zero, KeysOf(part)), zero, add, part[stale..], k);
    if j < stale {
      SuffixLacks(part, stale, j);
      SumWithoutKey(add, ValueOr(m, k, zero), part[stale..], k);
    } else {
      SuffixDistinct(part, stale);
      assert part[stale..][j - stale] == part[j];
      SumDistinct(add, ValueOr(m, k, zero), part[stale..], j - stale);
    }
  }

  lemma OutcomeKeys<V>(m: map<Key, V>, zero: V, add: (V, V) -> V, part: seq<Row<V>>, maxFill: nat, k: Key)
    ensures k in MergeOutcome(m, zero, add, part, maxFill) <==> k in m || HasKey(part, k)
  {
    var stale := StaleRows(m, zero, part, maxFill);
    GroupValue(m, zero, KeysOf(part), k);
    KeyOfRow(part, k);
    FoldKeys(WithGroups(m, zero, KeysOf(part)), zero, add, part[stale..], k);
    if HasKey(part[stale..], k) {
      SuffixHas(part, stale, k);
    }
  }

  /** A group the merge does not touch keeps its value. */
  lemma OutcomeElsewhere<V>(m: map<Key, V>, zero: V, add: (V, V) -> V, part: seq<Row<V>>, maxFill: nat, k: Key)
    requires !HasKey(part, k)
    ensures ValueOr(MergeOutcome(m, zero, add, part, maxFill), k, zero) == ValueOr(m, k, zero)
  {
    var stale := StaleRows(m, zero, part, maxFill);
    GroupValue(m, zero, KeysOf(part), k);
    FoldValue(WithGroups(m, zero, KeysOf(part)), zero, add, part[stale..], k);
    if HasKey(part[stale..], k) {
      SuffixHas(part, stale, k);
    }
    SumWithoutKey(add, ValueOr(m, k, zero), part[stale..], k);
  }

  /**
   * Exact condition, for one input: a merge equals the group-by fold iff everything that was added through stale pointers
   * would have made no difference.
   */
  lemma MergeExactIff<V>(m: map<Key, V>, zero: V, add: (V, V) -> V, part: seq<Row<V>>, maxFill: nat)
    requires DistinctKeys(part)
    ensures MergeOutcome(m, zero, add, part, maxFill) == Fold(m, zero, add, part)
       <==> forall j :: 0 <= j < StaleRows(m, zero, part, maxFill) ==>
              add(ValueOr(m, part[j].key, zero), part[j].payload) == ValueOr(m, part[j].key, zero)
  {
    var stale := StaleRows(m, zero, part, maxFill);
    var outcome, fold := MergeOutcome(m, zero, add, part, maxFill), Fold(m, zero, add, part);
    forall j | 0 <= j < |part|
      ensures ValueOr(fold, part[j].key, zero) == add(ValueOr(m, part[j].key, zero), part[j].payload)
      ensures ValueOr(outcome, part[j].key, zero)
           == if j < stale then ValueOr(m, part[j].key, zero) else ValueOr(fold, part[j].key, zero)
    {
      FoldValue(m, zero, add, part, part[j].key);
      SumDistinct(add, ValueOr(m, part[j].key, zero), part, j);
      OutcomeAt(m, zero, add, part, maxFill, j);
    }
    if forall j :: 0 <= j < stale ==>
         add(ValueOr(m, part[j].key, zero), part[j].payload) == ValueOr(m, part[j].key, zero) {
      forall k ensures (k in outcome <==> k in fold) && ValueOr(outcome, k, zero) == ValueOr(fold, k, zero) {
        OutcomeKeys(m, zero, add, part, maxFill, k);
        FoldKeys(m, zero, add, part, k);
        if !HasKey(part, k) {
          OutcomeElsewhere(m, zero, add, part, maxFill, k);
          FoldValue(m, zero, add, part, k);
          SumWithoutKey(add, ValueOr(m, k, zero), part, k);
        }
      }
      SameMap(outcome, fold, zero);
    }
  }

  lemma SameMap<V>(a: map<Key, V>, b: map<Key, V>, zero: V)
    requires forall k :: (k in a <==> k in b) && ValueOr(a, k, zero) == ValueOr(b, k, zero)
    ensures a == b
  {
    forall k | k in a ensures k in b && a[k] == b[k] {
      assert ValueOr(a, k, zero) == ValueOr(b, k, zero);
    }
    assert a.Keys == b.Keys;
  }

  /** The condition on counts that a caller can check before a merge: after the first key no further doubling is due. */
  ghost predicate NoLateDoubling<V>(m: map<Key, V>, zero: V, keys: seq<Key>, maxFill: nat) {
    |keys| <= 1 || GroupCount(m, zero, keys, |keys| - 1) < (if |m| >= maxFill then 2 * maxFill else maxFill)
  }

  lemma {:induction false} CountsGrow<V>(m: map<Key, V>, zero: V, keys: seq<Key>, i: nat, n: nat)
    requires i <= n <= |keys|
    ensures GroupCount(m, zero, keys, i) <= GroupCount(m, zero, keys, n)
    decreases n - i
  {
    if i < n {
      GroupCountStep(m, zero, keys, n - 1);
      CountsGrow(m, zero, keys, i, n - 1);
    }
  }

  lemma {:induction false} StaleIffDoubled<V>(m: map<Key, V>, zero: V, keys: seq<Key>, n: nat, maxFill: nat)
    requires n <= |keys| && 0 < maxFill
    ensures var base := if |m| >= maxFill then 2 * maxFill else maxFill;
      Stale(m, zero, keys, n, maxFill) == 0 <==> (n <= 1 || GroupCount(m, zero, keys, n - 1) < base)
    ensures var base := if |m| >= maxFill then 2 * maxFill else maxFill;
      Stale(m, zero, keys, n, maxFill) == 0 && n >= 1 ==> FillAfter(m, zero, keys, n, maxFill) == base
  {
    if n != 0 {
      GroupCountStart(m, zero, keys);
      StaleIffDoubled(m, zero, keys, n - 1, maxFill);
      if n >= 2 {
        CountsGrow(m, zero, keys, n - 2, n - 1);
      }
    }
  }

  /** No pointer goes stale iff the counts leave room, whatever the payloads are. */
  lemma NothingStaleIff<V>(m: map<Key, V>, zero: V, part: seq<Row<V>>, maxFill: nat)
    requires 0 < maxFill
    ensures StaleRows(m, zero, part, maxFill) == 0 <==> NoLateDoubling(m, zero, KeysOf(part), maxFill)
  {
    StaleIffDoubled(m, zero, KeysOf(part), |part|, maxFill);
  }

  /** With room to spare a merge is the group-by fold of its rows. */
  lemma MergeExact<V>(m: map<Key, V>, zero: V, add: (V, V) -> V, part: seq<Row<V>>, maxFill: nat)
    requires 0 < maxFill && NoLateDoubling(m, zero, KeysOf(part), maxFill)
    ensures MergeOutcome(m, zero, add, part, maxFill) == Fold(m, zero, add, part)
  {
    NothingStaleIff(m, zero, part, maxFill);
    assert part[0..] == part;
    GroupsFirst(m, zero, add, part);
  }

  lemma {:induction false} DistinctCounts<V>(zero: V, rows: seq<Row<V>>, n: nat)
    requires DistinctKeys(rows) && n <= |rows|
    ensures GroupCount(map[], zero, KeysOf(rows), n) == n
  {
    var none: map<Key, V> := map[];
    if n == 0 {
      GroupCountStart(none, zero, KeysOf(rows));
    } else {
      DistinctCounts(zero, rows, n - 1);
      GroupCountStep(none, zero, KeysOf(rows), n - 1);
      FreshKey(zero, rows, n - 1);
    }
  }

  lemma FreshKey<V>(zero: V, rows: seq<Row<V>>, n: nat)
    requires DistinctKeys(rows) && n < |rows|
    ensures KeysOf(rows)[n] !in WithGroups(map[], zero, KeysOf(rows)[..n])
  {
    GroupsArePadding(map[], zero, KeysOf(rows)[..n]);
    forall i | 0 <= i < n ensures KeysOf(rows)[..n][i] != rows[n].key {
      assert KeysOf(rows)[i] == rows[i].key;
    }
  }

  /** Nonzero integers behind a stale pointer are missing from the result. */
  lemma StaleLoses(m: map<Key, int>, part: seq<Row<int>>, maxFill: nat)
    requires DistinctKeys(part) && StaleRows(m, 0, part, maxFill) > 0 && part[0].payload != 0
    ensures MergeOutcome(m, 0, Plus, part, maxFill) != Fold(m, 0, Plus, part)
  {
    MergeExactIff(m, 0, Plus, part, maxFill);
    assert Plus(ValueOr(m, part[0].key, 0), part[0].payload) != ValueOr(m, part[0].key, 0);
  }

  lemma NewGroupsOverfill<V>(zero: V, part: seq<Row<V>>, maxFill: nat)
    requires DistinctKeys(part) && 0 < maxFill < |part|
    ensures StaleRows(map[], zero, part, maxFill) > 0
  {
    DistinctCounts(zero, part, |part| - 1);
    NothingStaleIff(map[], zero, part, maxFill);
  }

  /**
   * The failing family, concretely: more new groups than an empty target holds before it doubles. Summing nonzero integers
   * goes wrong.
   */
  lemma SkewLosesSums(part: seq<Row<int>>, maxFill: nat)
    requires DistinctKeys(part) && 0 < maxFill < |part| && part[0].payload != 0
    ensures MergeOutcome(map[], 0, Plus, part, maxFill) != Fold(map[], 0, Plus, part)
  {
    NewGroupsOverfill(0, part, maxFill);
    StaleLoses(map[], part, maxFill);
  }

  /** Into an empty target, sums of nonzero integers are right iff it holds all groups before it doubles. */
  lemma EmptyTargetExactIff(part: seq<Row<int>>, maxFill: nat)
    requires DistinctKeys(part) && 0 < maxFill && (part != [] ==> part[0].payload != 0)
    ensures MergeOutcome(map[], 0, Plus, part, maxFill) == Fold(map[], 0, Plus, part) <==> |part| <= maxFill
  {
    if |part| > maxFill {
      SkewLosesSums(part, maxFill);
    } else {
      if |part| > 1 {
        DistinctCounts(0, part, |part| - 1);
      }
      MergeExact(map[], 0, Plus, part, maxFill);
    }
  }

  /** Integer sums come out right for every choice of payloads iff the counts leave room. */
  lemma SumsExactIff(m: map<Key, int>, keys: seq<Key>, maxFill: nat)
    requires 0 < maxFill && forall i, j :: 0 <= i < j < |keys| ==> keys[i] != keys[j]
    ensures (forall part: seq<Row<int>> | KeysOf(part) == keys ::
               MergeOutcome(m, 0, Plus, part, maxFill) == Fold(m, 0, Plus, part))
       <==> NoLateDoubling(m, 0, keys, maxFill)
  {
    if NoLateDoubling(m, 0, keys, maxFill) {
      forall part: seq<Row<int>> | KeysOf(part) == keys
        ensures MergeOutcome(m, 0, Plus, part, maxFill) == Fold(m, 0, Plus, part)
      {
        MergeExact(m, 0, Plus, part, maxFill);
      }
    } else {
      var ones := seq(|keys|, i requires 0 <= i < |keys| => Row(keys[i], 1));
      assert KeysOf(ones) == keys;
      NothingStaleIff(m, 0, ones, maxFill);
      StaleLoses(m, ones, maxFill);
    }
  }

  function Plus(a: int, b: int): int {
    a + b
  }

  // ---------------------------------------------------------------------------------------------
  // The merge as it runs
  // ---------------------------------------------------------------------------------------------

  /** Worker `id` of `total` is responsible for the keys whose hash falls into its partition. */
  predicate Mine(hash: Key -> Hash, id: nat, total: nat, key: Key)
    requires total > 0
  {
    hash(key) % total == id
  }

  /** The rows in the first `n` slots of a table that worker `id` merges, in slot order. */
  function Partition<V>(hash: Key -> Hash, id: nat, total: nat, tags: seq<bv8>, data: seq<Row<V>>, n: nat): seq<Row<V>>
    requires n <= |tags| == |data| && total > 0
  {
    if n == 0 then []
    else
      Partition(hash, id, total, tags, data, n - 1)
      + if Filled(tags[n - 1]) && Mine(hash, id, total, data[n - 1].key) then [data[n - 1]] else []
  }

  lemma {:induction false} PartitionSkip<V>(hash: Key -> Hash, id: nat, total: nat, tags: seq<bv8>, data: seq<Row<V>>,
                                            from: nat, n: nat)
    requires from <= n <= |tags| == |data| && total > 0
    requires forall i :: from <= i < n ==> !Filled(tags[i])
    ensures Partition(hash, id, total, tags, data, n) == Partition(hash, id, total, tags, data, from)
  {
    if from < n {
      PartitionSkip(hash, id, total, tags, data, from, n - 1);
    }
  }

  /** Of the pointers collected for `keys`, exactly the first `stale` ones are stale. */
  ghost predicate Collected<V(!new)>(target: HashTable<V>, keys: seq<Key>, dest: seq<Pointer>, stale: nat)
    reads target
  {
    && |dest| == |keys| && stale <= |keys|
    && (forall i :: 0 <= i < stale ==> dest[i].generation < target.generation)
    && (forall i :: stale <= i < |keys| ==> target.Aimed(dest[i], keys[i]))
  }

  /** Creates one group in the target. A doubling makes every pointer collected so far stale. */
  method CollectOne<V(!new)>(target: HashTable<V>, key: Key, ghost keys: seq<Key>, ghost dest: seq<Pointer>, ghost stale: nat)
    returns (ptr: Pointer, grew: bool)
    requires target.Valid() && Collected(target, keys, dest, stale)
    modifies target, target.tags, target.data
    ensures target.Valid()
    ensures target.Contents() == var m := old(target.Contents()); if key in m then m else m[key := target.zero.payload]
    ensures grew == (|old(target.Contents())| >= old(target.maxFill))
    ensures target.maxFill == if grew then 2 * old(target.maxFill) else old(target.maxFill)
    ensures Collected(target, keys + [key], dest + [ptr], if grew then |keys| else stale)
    ensures target.tags == old(target.tags) || fresh(target.tags)
    ensures target.data == old(target.data) || fresh(target.data)
  {
    target.ContentsSize();
    var isNew;
    ptr, isNew, grew := target.LookupOrInsert(key);
  }

  /** The collected source slots hold `rows`. */
  ghost predicate SourceRows<V>(ds: seq<Row<V>>, slots: seq<nat>, rows: seq<Row<V>>) {
    |slots| == |rows| && forall i :: 0 <= i < |slots| ==> slots[i] < |ds| && ds[slots[i]] == rows[i]
  }

  ghost predicate Progress<V(!new)>(m: map<Key, V>, zero: V, limit: nat, ds: seq<Row<V>>, target: HashTable<V>,
                                    slots: seq<nat>, dest: seq<Pointer>, rows: seq<Row<V>>)
    reads target, target.tags, target.data
  {
    && target.Valid()
    && SourceRows(ds, slots, rows)
    && target.zero.payload == zero
    && target.Contents() == WithGroups(m, zero, KeysOf(rows))
    && target.maxFill == FillAfter(m, zero, KeysOf(rows), |rows|, limit)
    && Collected(target, KeysOf(rows), dest, StaleRows(m, zero, rows, limit))
  }

  /** Counts and stale pointers depend on the keys collected so far only. */
  lemma {:induction false} CountsOfPrefix<V>(m: map<Key, V>, zero: V, keys: seq<Key>, keys': seq<Key>, n: nat, limit: nat)
    requires n <= |keys| && n <= |keys'| && keys[..n] == keys'[..n]
    ensures FillAfter(m, zero, keys, n, limit) == FillAfter(m, zero, keys', n, limit)
    ensures Stale(m, zero, keys, n, limit) == Stale(m, zero, keys', n, limit)
  {
    if n != 0 {
      assert keys[..n - 1] == keys[..n][..n - 1] && keys'[..n - 1] == keys'[..n][..n - 1];
      CountsOfPrefix(m, zero, keys, keys', n - 1, limit);
    }
  }

  lemma SourceRowsStep<V>(ds: seq<Row<V>>, slots: seq<nat>, rows: seq<Row<V>>, idx: nat)
    requires SourceRows(ds, slots, rows) && idx < |ds|
    ensures SourceRows(ds, slots + [idx], rows + [ds[idx]])
  {
  }

  lemma ProgressStep<V>(m: map<Key, V>, zero: V, rows: seq<Row<V>>, row: Row<V>, limit: nat)
    ensures KeysOf(rows + [row]) == KeysOf(rows) + [row.key]
    ensures WithGroups(m, zero, KeysOf(rows + [row]))
         == var m' := WithGroups(m, zero, KeysOf(rows)); if row.key in m' then m' else m'[row.key := zero]
    ensures var fill, groups := FillAfter(m, zero, KeysOf(rows), |rows|, limit), WithGroups(m, zero, KeysOf(rows));
      && FillAfter(m, zero, KeysOf(rows + [row]), |rows| + 1, limit) == (if |groups| >= fill then 2 * fill else fill)
      && StaleRows(m, zero, rows + [row], limit) == if |groups| >= fill then |rows| else StaleRows(m, zero, rows, limit)
  {
    var keys, keys' := KeysOf(rows), KeysOf(rows + [row]);
    assert keys' == keys + [row.key];
    assert keys'[..|rows|] == keys == keys[..|rows|];
    CountsOfPrefix(m, zero, keys', keys, |rows|, limit);
    WithOneMoreGroup(m, zero, keys', |rows|);
    assert keys'[..|rows| + 1] == keys';
  }

  /** One step of the walk: collect the pair if the row belongs to this worker. */
  method VisitSlot<V(!new)>(hash: Key -> Hash, ds: seq<Row<V>>, target: HashTable<V>, id: nat, total: nat, idx: nat,
                            slots: seq<nat>, dest: seq<Pointer>, ghost rows: seq<Row<V>>,
                            ghost m: map<Key, V>, ghost zero: V, ghost limit: nat)
    returns (slots': seq<nat>, dest': seq<Pointer>, ghost rows': seq<Row<V>>, grew: bool)
    requires total > 0 && idx < |ds|
    requires Progress(m, zero, limit, ds, target, slots, dest, rows)
    modifies target, target.tags, target.data
    ensures Progress(m, zero, limit, ds, target, slots', dest', rows')
    ensures rows' == rows + if Mine(hash, id, total, ds[idx].key) then [ds[idx]] else []
    ensures target.tags == old(target.tags) || fresh(target.tags)
    ensures target.data == old(target.data) || fresh(target.data)
  {
    slots', dest', rows', grew := slots, dest, rows, false;
    if Mine(hash, id, total, ds[idx].key) {
      var p;
      p, grew := CollectOne(target, ds[idx].key, KeysOf(rows), dest, StaleRows(m, zero, rows, limit));
      ProgressStep(m, zero, rows, ds[idx], limit);
      SourceRowsStep(ds, slots, rows, idx);
      slots', dest', rows' := slots + [idx], dest + [p], rows + [ds[idx]];
    }
  }

  /** Where the walk over the source stands: everything before `from` has been visited, the iterator rests behind it. */
  ghost predicate Walking<V>(hash: Key -> Hash, ts: seq<bv8>, ds: seq<Row<V>>, id: nat, total: nat, from: nat,
                             ptr: Option<nat>, idx: nat, rows: seq<Row<V>>)
    requires |ts| == |ds| && total > 0
  {
    && from <= |ts|
    && RestsAt(ts, from, ptr) && (ptr.Some? ==> ptr.value == idx)
    && rows == Partition(hash, id, total, ts, ds, from)
  }

  lemma WalkOn<V>(hash: Key -> Hash, ts: seq<bv8>, ds: seq<Row<V>>, id: nat, total: nat, from: nat, idx: nat, rows: seq<Row<V>>,
                  ptr': Option<nat>, idx': nat, rows': seq<Row<V>>)
    requires |ts| == |ds| && total > 0 && Walking(hash, ts, ds, id, total, from, Some(idx), idx, rows)
    requires RestsAt(ts, idx + 1, ptr') && (ptr'.Some? ==> ptr'.value == idx')
    requires rows' == rows + if Mine(hash, id, total, ds[idx].key) then [ds[idx]] else []
    ensures Walking(hash, ts, ds, id, total, idx + 1, ptr', idx', rows')
  {
    PartitionSkip(hash, id, total, ts, ds, from, idx);
  }

  lemma WalkEnd<V>(hash: Key -> Hash, ts: seq<bv8>, ds: seq<Row<V>>, id: nat, total: nat, from: nat, idx: nat, rows: seq<Row<V>>)
    requires |ts| == |ds| && total > 0 && Walking(hash, ts, ds, id, total, from, None, idx, rows)
    ensures Walking(hash, ts, ds, id, total, |ts|, None, idx, rows)
  {
    PartitionSkip(hash, id, total, ts, ds, from, |ts|);
  }

  /** Advances the iterator behind a row. */
  method AdvanceWalk<V>(ghost hash: Key -> Hash, ts: seq<bv8>, ghost ds: seq<Row<V>>, ghost id: nat, ghost total: nat,
                        ghost from: nat, idx: nat, ghost rows: seq<Row<V>>)
    returns (ptr': Option<nat>, idx': nat, ghost from': nat, ghost rows': seq<Row<V>>)
    requires |ts| == |ds| && total > 0 && Walking(hash, ts, ds, id, total, from, Some(idx), idx, rows)
    ensures from' > from && idx < |ds| && rows' == rows + if Mine(hash, id, total, ds[idx].key) then [ds[idx]] else []
    ensures Walking(hash, ts, ds, id, total, from', ptr', idx', rows')
  {
    ptr', idx' := IteratorAdvance(ts, idx);
    from', rows' := idx + 1, rows + if Mine(hash, id, total, ds[idx].key) then [ds[idx]] else [];
    WalkOn(hash, ts, ds, id, total, from, idx, rows, ptr', idx', rows');
  }

  /** The inner loop of the first phase: advance the iterator to the end of the source. */
  method CollectRound<V(!new)>(hash: Key -> Hash, ts: seq<bv8>, ds: seq<Row<V>>, target: HashTable<V>, id: nat, total: nat,
                               ptr0: Option<nat>, idx0: nat, slots0: seq<nat>, dest0: seq<Pointer>,
                               ghost rows0: seq<Row<V>>, ghost from0: nat,
                               ghost m: map<Key, V>, ghost zero: V, ghost limit: nat)
    returns (ptr: Option<nat>, idx: nat, slots: seq<nat>, dest: seq<Pointer>, ghost rows: seq<Row<V>>, restart: bool)
    requires |ts| == |ds| && total > 0
    requires Progress(m, zero, limit, ds, target, slots0, dest0, rows0)
    requires Walking(hash, ts, ds, id, total, from0, ptr0, idx0, rows0)
    modifies target, target.tags, target.data
    ensures Progress(m, zero, limit, ds, target, slots, dest, rows)
    ensures ptr == None && Walking(hash, ts, ds, id, total, |ts|, None, idx, rows)
    ensures ptr0.None? ==> !restart
    ensures target.tags == old(target.tags) || fresh(target.tags)
    ensures target.data == old(target.data) || fresh(target.data)
  {
    ptr, idx, slots, dest, rows, restart := ptr0, idx0, slots0, dest0, rows0, false;
    ghost var from := from0;
    while ptr.Some?
      invariant Progress(m, zero, limit, ds, target, slots, dest, rows)
      invariant Walking(hash, ts, ds, id, total, from, ptr, idx, rows)
      invariant ptr0.None? ==> ptr.None? && !restart
      invariant target.tags == old(target.tags) || fresh(target.tags)
      invariant target.data == old(target.data) || fresh(target.data)
      decreases |ts| - from
    {
      // The iterator only reads the source, so it may as well advance before the row is visited.
      var at, grew := idx, false;
      ghost var more, visited;
      ptr, idx, from, more := AdvanceWalk(hash, ts, ds, id, total, from, idx, rows);
      slots, dest, visited, grew := VisitSlot(hash, ds, target, id, total, at, slots, dest, rows, m, zero, limit);
      rows, restart := more, restart || grew;
    }
    WalkEnd(hash, ts, ds, id, total, from, idx, rows);
  }

  /**
   * First phase: walk the source with its iterator and collect the pairs of this worker's partition. The outer loop repeats
   * while the restart flag is up, but neither the iterator nor the pairs are reset, so the second round is empty.
   */
  method CollectPairs<V(!new)>(hash: Key -> Hash, ts: seq<bv8>, ds: seq<Row<V>>, target: HashTable<V>, id: nat, total: nat)
    returns (slots: seq<nat>, dest: seq<Pointer>, ghost rows: seq<Row<V>>)
    requires target.Valid() && |ts| == |ds| > 0 && total > 0
    modifies target, target.tags, target.data
    ensures rows == Partition(hash, id, total, ts, ds, |ts|)
    ensures Progress(old(target.Contents()), target.zero.payload, old(target.maxFill), ds, target, slots, dest, rows)
    ensures target.tags == old(target.tags) || fresh(target.tags)
    ensures target.data == old(target.data) || fresh(target.data)
  {
    ghost var m, zero, limit := target.Contents(), target.zero.payload, target.maxFill;
    slots, dest, rows := [], [], [];
    var ptr, idx := IteratorStart(ts);
    var restart;
    ptr, idx, slots, dest, rows, restart :=
      CollectRound(hash, ts, ds, target, id, total, ptr, idx, slots, dest, rows, 0, m, zero, limit);
    while restart
      invariant Progress(m, zero, limit, ds, target, slots, dest, rows)
      invariant ptr == None && Walking(hash, ts, ds, id, total, |ts|, ptr, idx, rows)
      invariant target.tags == old(target.tags) || fresh(target.tags)
      invariant target.data == old(target.data) || fresh(target.data)
      decreases restart
    {
      ptr, idx, slots, dest, rows, restart :=
        CollectRound(hash, ts, ds, target, id, total, ptr, idx, slots, dest, rows, |ts|, m, zero, limit);
    }
  }

  /** All granules of a payload, one after the other. */
  function ApplyAll<V>(adds: seq<(V, V) -> V>, v: V, p: V): V {
    if adds == [] then v else adds[|adds| - 1](ApplyAll(adds[..|adds| - 1], v, p), p)
  }

  function Combined<V>(adds: seq<(V, V) -> V>): (V, V) -> V {
    (v, p) => ApplyAll(adds, v, p)
  }

  /** Adding a granule of all rows after adding some others of all rows is adding one more granule, row by row. */
  lemma PassesCombine<V>(m: map<Key, V>, zero: V, adds: seq<(V, V) -> V>, n: nat, rows: seq<Row<V>>)
    requires DistinctKeys(rows) && n < |adds|
    ensures Fold(Fold(m, zero, Combined(adds[..n]), rows), zero, adds[n], rows) == Fold(m, zero, Combined(adds[..n + 1]), rows)
  {
    var first := Fold(m, zero, Combined(adds[..n]), rows);
    var both, all := Fold(first, zero, adds[n], rows), Fold(m, zero, Combined(adds[..n + 1]), rows);
    forall k ensures (k in both <==> k in all) && ValueOr(both, k, zero) == ValueOr(all, k, zero) {
      FoldKeys(m, zero, Combined(adds[..n]), rows, k);
      FoldKeys(first, zero, adds[n], rows, k);
      FoldKeys(m, zero, Combined(adds[..n + 1]), rows, k);
      FoldValue(m, zero, Combined(adds[..n]), rows, k);
      FoldValue(first, zero, adds[n], rows, k);
      FoldValue(m, zero, Combined(adds[..n + 1]), rows, k);
      PassesCombineAt(ValueOr(m, k, zero), adds, n, rows, k);
    }
    SameMap(both, all, zero);
  }

  lemma PassesCombineAt<V>(start: V, adds: seq<(V, V) -> V>, n: nat, rows: seq<Row<V>>, k: Key)
    requires DistinctKeys(rows) && n < |adds|
    ensures SumFrom(adds[n], SumFrom(Combined(adds[..n]), start, rows, k), rows, k)
         == SumFrom(Combined(adds[..n + 1]), start, rows, k)
  {
    var first := SumFrom(Combined(adds[..n]), start, rows, k);
    if j :| 0 <= j < |rows| && rows[j].key == k {
      SumDistinct(Combined(adds[..n]), start, rows, j);
      SumDistinct(adds[n], first, rows, j);
      SumDistinct(Combined(adds[..n + 1]), start, rows, j);
      assert adds[..n + 1][..n] == adds[..n];
    } else {
      SumWithoutKey(Combined(adds[..n]), start, rows, k);
      SumWithoutKey(adds[n], first, rows, k);
      SumWithoutKey(Combined(adds[..n + 1]), start, rows, k);
    }
  }

  /** Without any granule nothing happens to groups that exist. */
  lemma {:induction false} NoPass<V>(m: map<Key, V>, zero: V, rows: seq<Row<V>>)
    requires forall j :: 0 <= j < |rows| ==> rows[j].key in m
    ensures Fold(m, zero, Combined([]), rows) == m
  {
    if rows != [] {
      NoPass(m, zero, rows[..|rows| - 1]);
      assert rows[|rows| - 1].key in m;
    }
  }

  /** One addition for every granule of a payload, which together are `add`. */
  ghost predicate Splits<V(!new)>(adds: seq<(V, V) -> V>, add: (V, V) -> V) {
    forall v, p {:trigger add(v, p)} :: ApplyAll(adds, v, p) == add(v, p)
  }

  lemma {:induction false} FoldSplits<V(!new)>(m: map<Key, V>, zero: V, adds: seq<(V, V) -> V>, add: (V, V) -> V,
                                               rows: seq<Row<V>>)
    requires Splits(adds, add)
    ensures Fold(m, zero, Combined(adds), rows) == Fold(m, zero, add, rows)
  {
    if rows != [] {
      FoldSplits(m, zero, adds, add, rows[..|rows| - 1]);
    }
  }

  /** Second phase: one loop over all pairs for every granule. What goes through a stale pointer is lost. */
  method MergeSum<V(!new)>(ds: seq<Row<V>>, target: HashTable<V>, slots: seq<nat>, dest: seq<Pointer>,
                           ghost rows: seq<Row<V>>, ghost stale: nat, adds: seq<(V, V) -> V>, ghost add: (V, V) -> V)
    requires target.Valid() && SourceRows(ds, slots, rows) && Collected(target, KeysOf(rows), dest, stale)
    requires DistinctKeys(rows) && Splits(adds, add)
    modifies target.data
    ensures target.Valid()
    ensures target.Contents() == Fold(old(target.Contents()), target.zero.payload, add, rows[stale..])
  {
    ghost var m, zero := target.Contents(), target.zero.payload;
    GroupsExist(target, rows, dest, stale);
    NoPass(m, zero, rows[stale..]);
    SuffixDistinct(rows, stale);
    ghost var groups := m;
    assert adds[..0] == [];
    var g := 0;
    while g < |adds|
      invariant 0 <= g <= |adds| && target.Valid() && Collected(target, KeysOf(rows), dest, stale)
      invariant target.Contents() == groups == Fold(m, zero, Combined(adds[..g]), rows[stale..])
    {
      MergeGranule(ds, target, slots, dest, rows, stale, adds[g]);
      PassesCombine(m, zero, adds, g, rows[stale..]);
      groups := Fold(groups, zero, adds[g], rows[stale..]);
      g := g + 1;
    }
    assert adds[..|adds|] == adds;
    FoldSplits(m, zero, adds, add, rows[stale..]);
  }

  lemma GroupsExist<V(!new)>(target: HashTable<V>, rows: seq<Row<V>>, dest: seq<Pointer>, stale: nat)
    requires target.Valid() && Collected(target, KeysOf(rows), dest, stale)
    ensures forall j :: 0 <= j < |rows[stale..]| ==> rows[stale..][j].key in target.Contents()
  {
    forall j | 0 <= j < |rows[stale..]| ensures rows[stale..][j].key in target.Contents() {
      assert target.Aimed(dest[stale + j], KeysOf(rows)[stale + j]);
    }
  }

  /** The loop for one granule: `mergeSum` of the original. */
  method MergeGranule<V(!new)>(ds: seq<Row<V>>, target: HashTable<V>, slots: seq<nat>, dest: seq<Pointer>,
                               ghost rows: seq<Row<V>>, ghost stale: nat, add: (V, V) -> V)
    requires target.Valid() && SourceRows(ds, slots, rows) && Collected(target, KeysOf(rows), dest, stale)
    modifies target.data
    ensures target.Valid() && Collected(target, KeysOf(rows), dest, stale)
    ensures target.Contents() == Fold(old(target.Contents()), target.zero.payload, add, rows[stale..])
  {
    ghost var m, zero := target.Contents(), target.zero.payload;
    ghost var groups := m;
    var k := 0;
    while k < |slots|
      invariant 0 <= k <= |slots| && target.Valid() && Collected(target, KeysOf(rows), dest, stale)
      invariant target.Contents() == groups == MergedSoFar(m, zero, add, rows, stale, k)
    {
      MergeRow(ds, target, slots[k], dest, rows, stale, k, add);
      MergedOne(m, zero, add, rows, stale, k);
      groups := if k < stale then groups else Bump(groups, zero, add, rows[k]);
      k := k + 1;
    }
    assert rows[stale..|rows|] == rows[stale..];
  }

  ghost function MergedSoFar<V>(m: map<Key, V>, zero: V, add: (V, V) -> V, rows: seq<Row<V>>, stale: nat, k: nat): map<Key, V>
    requires k <= |rows|
  {
    Fold(m, zero, add, if k <= stale then [] else rows[stale..k])
  }

  /** One addition. Only a current pointer makes a difference to the target. */
  method MergeRow<V(!new)>(ds: seq<Row<V>>, target: HashTable<V>, slot: nat, dest: seq<Pointer>,
                           ghost rows: seq<Row<V>>, ghost stale: nat, k: nat, add: (V, V) -> V)
    requires target.Valid() && Collected(target, KeysOf(rows), dest, stale) && k < |rows|
    requires slot < |ds| && ds[slot] == rows[k]
    modifies target.data
    ensures target.Valid() && Collected(target, KeysOf(rows), dest, stale)
    ensures target.Contents() == var m := old(target.Contents());
      if k < stale then m else Bump(m, target.zero.payload, add, rows[k])
  {
    target.AddThrough(dest[k], rows[k].key, ds[slot].payload, add);
  }

  lemma MergedOne<V>(m: map<Key, V>, zero: V, add: (V, V) -> V, rows: seq<Row<V>>, stale: nat, k: nat)
    requires stale <= |rows| && k < |rows|
    ensures MergedSoFar(m, zero, add, rows, stale, k + 1)
         == var m' := MergedSoFar(m, zero, add, rows, stale, k); if k < stale then m' else Bump(m', zero, add, rows[k])
  {
    if k >= stale {
      assert rows[stale..k + 1] == rows[stale..k] + [rows[k]];
      assert rows[stale..k + 1][..k - stale] == rows[stale..k];
    }
  }

  /** A local table in the merge phase. All workers read it at once, and nobody writes to it any more. */
  datatype Frozen<V> = Frozen(hash: Key -> Hash, tags: seq<bv8>, data: seq<Row<V>>) {
    predicate WellFormed() {
      |tags| == |data| > 0
    }

    /** The rows that worker `id` merges. */
    function Share(id: nat, total: nat): seq<Row<V>>
      requires WellFormed() && total > 0
    {
      Partition(hash, id, total, tags, data, |tags|)
    }
  }

  predicate AllWellFormed<V>(tables: seq<Frozen<V>>) {
    forall i :: 0 <= i < |tables| ==> tables[i].WellFormed()
  }

  function Shares<V>(tables: seq<Frozen<V>>, id: nat, total: nat): (parts: seq<seq<Row<V>>>)
    requires AllWellFormed(tables) && total > 0
    ensures |parts| == |tables|
    ensures forall i :: 0 <= i < |tables| ==> parts[i] == tables[i].Share(id, total)
  {
    if tables == [] then []
    else Shares(tables[..|tables| - 1], id, total) + [tables[|tables| - 1].Share(id, total)]
  }

  /** Merges one local table into the target of worker `id`. */
  method MergeSingleTable<V(!new)>(src: Frozen<V>, target: HashTable<V>, id: nat, total: nat,
                                   adds: seq<(V, V) -> V>, ghost add: (V, V) -> V)
    requires target.Valid() && total > 0 && src.WellFormed() && DistinctKeys(src.Share(id, total)) && Splits(adds, add)
    modifies target, target.tags, target.data
    ensures target.Valid()
    ensures var m, zero, part, limit := old(target.Contents()), target.zero.payload, src.Share(id, total), old(target.maxFill);
      target.Contents() == MergeOutcome(m, zero, add, part, limit) && target.maxFill == FillOf(m, zero, part, limit)
    ensures target.tags == old(target.tags) || fresh(target.tags)
    ensures target.data == old(target.data) || fresh(target.data)
  {
    var slots, dest;
    ghost var rows;
    slots, dest, rows := CollectPairs(src.hash, src.tags, src.data, target, id, total);
    ghost var stale := StaleRows(old(target.Contents()), target.zero.payload, rows, old(target.maxFill));
    MergeSum(src.data, target, slots, dest, rows, stale, adds, add);
  }

  /** The fill limit of the target after a merge. */
  ghost function FillOf<V>(m: map<Key, V>, zero: V, part: seq<Row<V>>, limit: nat): (limit': nat)
    ensures limit' >= limit
  {
    FillAfter(m, zero, KeysOf(part), |part|, limit)
  }

  /** The groups of a target, and its fill limit, after the first `n` merges. */
  ghost function MergedGroups<V>(m: map<Key, V>, zero: V, add: (V, V) -> V, parts: seq<seq<Row<V>>>, n: nat, limit: nat)
    : map<Key, V>
    requires n <= |parts|
  {
    if n == 0 then m
    else
      MergeOutcome(MergedGroups(m, zero, add, parts, n - 1, limit), zero, add, parts[n - 1],
                   MergedFill(m, zero, add, parts, n - 1, limit))
  }

  ghost function MergedFill<V>(m: map<Key, V>, zero: V, add: (V, V) -> V, parts: seq<seq<Row<V>>>, n: nat, limit: nat)
    : (limit': nat)
    requires n <= |parts|
    ensures limit' >= limit
  {
    if n == 0 then limit
    else
      FillOf(MergedGroups(m, zero, add, parts, n - 1, limit), zero, parts[n - 1],
             MergedFill(m, zero, add, parts, n - 1, limit))
  }

  lemma NextMerge<V>(m: map<Key, V>, zero: V, add: (V, V) -> V, parts: seq<seq<Row<V>>>, n: nat, limit: nat)
    requires n < |parts|
    ensures var groups, fill := MergedGroups(m, zero, add, parts, n, limit), MergedFill(m, zero, add, parts, n, limit);
      && MergedGroups(m, zero, add, parts, n + 1, limit) == MergeOutcome(groups, zero, add, parts[n], fill)
      && MergedFill(m, zero, add, parts, n + 1, limit) == FillOf(groups, zero, parts[n], fill)
  {
  }

  /** No local table has a group twice. */
  ghost predicate AllDistinct<V>(parts: seq<seq<Row<V>>>) {
    forall i :: 0 <= i < |parts| ==> DistinctKeys(parts[i])
  }

  /** Where a worker stands after the first `n` merges. */
  ghost predicate HasMerged<V(!new)>(m: map<Key, V>, add: (V, V) -> V, parts: seq<seq<Row<V>>>, n: nat, limit: nat,
                                     target: HashTable<V>)
    requires n <= |parts|
    reads target, target.tags, target.data
  {
    && target.Valid()
    && target.Contents() == MergedGroups(m, target.zero.payload, add, parts, n, limit)
    && target.maxFill == MergedFill(m, target.zero.payload, add, parts, n, limit)
  }

  method MergeNext<V(!new)>(src: Frozen<V>, target: HashTable<V>, id: nat, total: nat,
                            adds: seq<(V, V) -> V>, ghost add: (V, V) -> V,
                            ghost m: map<Key, V>, ghost parts: seq<seq<Row<V>>>, ghost n: nat, ghost limit: nat)
    requires total > 0 && src.WellFormed() && n < |parts| && parts[n] == src.Share(id, total) && DistinctKeys(parts[n])
    requires Splits(adds, add) && HasMerged(m, add, parts, n, limit, target)
    modifies target, target.tags, target.data
    ensures HasMerged(m, add, parts, n + 1, limit, target)
    ensures target.tags == old(target.tags) || fresh(target.tags)
    ensures target.data == old(target.data) || fresh(target.data)
  {
    MergeSingleTable(src, target, id, total, adds, add);
    NextMerge(m, target.zero.payload, add, parts, n, limit);
  }

  /** Worker `id` merges its partition of every local table, one table after the other. */
  method MergeTables<V(!new)>(tables: seq<Frozen<V>>, target: HashTable<V>, id: nat, total: nat,
                              adds: seq<(V, V) -> V>, ghost add: (V, V) -> V)
    requires total > 0 && target.Valid() && AllWellFormed(tables) && AllDistinct(Shares(tables, id, total)) && Splits(adds, add)
    modifies target, target.tags, target.data
    ensures target.Valid()
    ensures target.Contents()
         == MergedGroups(old(target.Contents()), target.zero.payload, add, Shares(tables, id, total), |tables|, old(target.maxFill))
    ensures target.tags == old(target.tags) || fresh(target.tags)
    ensures target.data == old(target.data) || fresh(target.data)
  {
    ghost var m, limit, parts := target.Contents(), target.maxFill, Shares(tables, id, total);
    var i := 0;
    while i < |tables|
      invariant 0 <= i <= |tables| && HasMerged(m, add, parts, i, limit, target)
      invariant target.tags == old(target.tags) || fresh(target.tags)
      invariant target.data == old(target.data) || fresh(target.data)
    {
      MergeNext(tables[i], target, id, total, adds, add, m, parts, i, limit);
      i := i + 1;
    }
  }
}
