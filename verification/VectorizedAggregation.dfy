/**
 * Aggregating a chunk of rows in two ways: fused, one row at a time, and vectorised, where one primitive first looks up all
 * groups and a second one updates them through the returned pointers. A doubling in the middle of a chunk leaves
 * stale pointers behind, so the first primitive is rerun until no doubling happens.
 */
module VectorizedAggregation {
  import opened Hashing
  import opened ProbeChain
  import opened SharedTable

  /** Folding one row into a group-by result. */
  function Bump<V>(m: map<Key, V>, zero: V, add: (V, V) -> V, row: Row<V>): map<Key, V> {
    m[row.key := add(if row.key in m then m[row.key] else zero, row.payload)]
  }

  /** The naive group-by: fold the rows into the result one after the other. */
  function Fold<V>(m: map<Key, V>, zero: V, add: (V, V) -> V, rows: seq<Row<V>>): map<Key, V> {
    if rows == [] then m
    else Bump(Fold(m, zero, add, rows[..|rows| - 1]), zero, add, rows[|rows| - 1])
  }

  /** Groups that do not exist yet start with a zero payload. */
  function WithGroups<V>(m: map<Key, V>, zero: V, keys: seq<Key>): map<Key, V> {
    if keys == [] then m
    else
      var m' := WithGroups(m, zero, keys[..|keys| - 1]);
      if keys[|keys| - 1] in m' then m' else m'[keys[|keys| - 1] := zero]
  }

  lemma {:induction false} GroupsArePadding<V>(m: map<Key, V>, zero: V, keys: seq<Key>)
    ensures Padded(m, WithGroups(m, zero, keys), zero)
    ensures WithGroups(m, zero, keys).Keys == m.Keys + set k | k in keys
  {
    if keys != [] {
      GroupsArePadding(m, zero, keys[..|keys| - 1]);
      assert keys == keys[..|keys| - 1] + [keys[|keys| - 1]];
    }
  }

  lemma {:induction false} GroupsExist<V>(m: map<Key, V>, zero: V, keys: seq<Key>)
    requires forall k :: k in keys ==> k in m
    ensures WithGroups(m, zero, keys) == m
  {
    if keys != [] {
      GroupsExist(m, zero, keys[..|keys| - 1]);
    }
  }

  function KeysOf<V>(rows: seq<Row<V>>): seq<Key> {
    seq(|rows|, i requires 0 <= i < |rows| => rows[i].key)
  }

  /** `m'` is `m` with some additional groups that are still zero. */
  ghost predicate Padded<V>(m: map<Key, V>, m': map<Key, V>, zero: V) {
    && (forall k :: k in m ==> k in m' && m'[k] == m[k])
    && (forall k :: k in m' && k !in m ==> m'[k] == zero)
  }

  lemma {:induction false} FoldPadded<V>(m: map<Key, V>, m': map<Key, V>, zero: V, add: (V, V) -> V, rows: seq<Row<V>>)
    requires Padded(m, m', zero)
    ensures Padded(Fold(m, zero, add, rows), Fold(m', zero, add, rows), zero)
    ensures Fold(m, zero, add, rows).Keys == m.Keys + set r | r in rows :: r.key
    ensures Fold(m', zero, add, rows).Keys == m'.Keys + set r | r in rows :: r.key
  {
    if rows != [] {
      var init, last := rows[..|rows| - 1], rows[|rows| - 1];
      assert rows == init + [last];
      FoldPadded(m, m', zero, add, init);
    }
  }

  /** Creating the groups of a chunk up front makes no difference to the result of the chunk. */
  lemma GroupsFirst<V>(m: map<Key, V>, zero: V, add: (V, V) -> V, rows: seq<Row<V>>)
    ensures Fold(WithGroups(m, zero, KeysOf(rows)), zero, add, rows) == Fold(m, zero, add, rows)
  {
    var m' := WithGroups(m, zero, KeysOf(rows));
    GroupsArePadding(m, zero, KeysOf(rows));
    FoldPadded(m, m', zero, add, rows);
    forall k | k in m' ensures k in Fold(m, zero, add, rows) {
      if k !in m {
        var i :| 0 <= i < |KeysOf(rows)| && KeysOf(rows)[i] == k;
        assert rows[i] in rows && rows[i].key == k;
      }
    }
    assert Fold(m', zero, add, rows).Keys == Fold(m, zero, add, rows).Keys;
  }

  lemma Prefix<A>(xs: seq<A>, i: nat)
    requires i < |xs|
    ensures xs[..i + 1] == xs[..i] + [xs[i]] && xs[..i + 1][..i] == xs[..i]
  {
  }

  // ---------------------------------------------------------------------------------------------
  // Fused execution
  // ---------------------------------------------------------------------------------------------

  /** One iteration of the fused loop: look the group up, then update it at once. */
  method FusedStep<V(!new)>(table: HashTable<V>, row: Row<V>, add: (V, V) -> V)
    requires table.Valid()
    modifies table, table.tags, table.data
    ensures table.Valid()
    ensures table.Contents() == Bump(old(table.Contents()), table.zero.payload, add, row)
    ensures table.tags == old(table.tags) || fresh(table.tags)
    ensures table.data == old(table.data) || fresh(table.data)
  {
    var ptr, isNew, grew := table.LookupOrInsert(row.key);
    table.AddThrough(ptr, row.key, row.payload, add);
  }

  method RunFused<V(!new)>(table: HashTable<V>, rows: seq<Row<V>>, add: (V, V) -> V)
    requires table.Valid()
    modifies table, table.tags, table.data
    ensures table.Valid()
    ensures table.Contents() == Fold(old(table.Contents()), table.zero.payload, add, rows)
    ensures table.tags == old(table.tags) || fresh(table.tags)
    ensures table.data == old(table.data) || fresh(table.data)
  {
    ghost var start := table.Contents();
    for i := 0 to |rows|
      invariant table.Valid()
      invariant table.Contents() == Fold(start, table.zero.payload, add, rows[..i])
      invariant table.tags == old(table.tags) || fresh(table.tags)
      invariant table.data == old(table.data) || fresh(table.data)
    {
      FusedStep(table, rows[i], add);
      Prefix(rows, i);
    }
    assert rows[..|rows|] == rows;
  }

  // ---------------------------------------------------------------------------------------------
  // Vectorised execution
  // ---------------------------------------------------------------------------------------------

  /** Every pointer refers to the slot that currently holds its key. */
  ghost predicate Current<V(!new)>(table: HashTable<V>, keys: seq<Key>, ptrs: seq<Pointer>)
    reads table
  {
    && |ptrs| == |keys|
    && forall i :: 0 <= i < |ptrs| ==> table.Aimed(ptrs[i], keys[i])
  }

  lemma WithOneMoreGroup<V>(m: map<Key, V>, zero: V, keys: seq<Key>, i: nat)
    requires i < |keys|
    ensures WithGroups(m, zero, keys[..i + 1])
         == var m' := WithGroups(m, zero, keys[..i]); if keys[i] in m' then m' else m'[keys[i] := zero]
  {
    Prefix(keys, i);
  }

  /** How many groups there are after looking up or inserting the first `n` keys. */
  ghost function GroupCount<V>(m: map<Key, V>, zero: V, keys: seq<Key>, n: nat): nat
    requires n <= |keys|
  {
    |WithGroups(m, zero, keys[..n])|
  }

  /** The fill limit after the first `n` keys: it doubles whenever it is already reached when a key is looked up. */
  ghost function FillAfter<V>(m: map<Key, V>, zero: V, keys: seq<Key>, n: nat, maxFill: nat): (limit: nat)
    requires n <= |keys|
    ensures limit >= maxFill
  {
    if n == 0 then maxFill
    else
      var limit := FillAfter(m, zero, keys, n - 1, maxFill);
      if GroupCount(m, zero, keys, n - 1) >= limit then 2 * limit else limit
  }

  lemma GroupCountStep<V>(m: map<Key, V>, zero: V, keys: seq<Key>, n: nat)
    requires n < |keys|
    ensures GroupCount(m, zero, keys, n + 1)
         == GroupCount(m, zero, keys, n) + if keys[n] in WithGroups(m, zero, keys[..n]) then 0 else 1
  {
    WithOneMoreGroup(m, zero, keys, n);
    AtMostOneMore(WithGroups(m, zero, keys[..n]), zero, keys[n]);
  }

  lemma AtMostOneMore<V>(m: map<Key, V>, zero: V, k: Key)
    ensures |m[k := zero]| == |m| + if k in m then 0 else 1
  {
    assert m[k := zero].Keys == m.Keys + {k};
    assert |m[k := zero]| == |m[k := zero].Keys| && |m| == |m.Keys|;
  }

  lemma GroupCountStart<V>(m: map<Key, V>, zero: V, keys: seq<Key>)
    ensures GroupCount(m, zero, keys, 0) == |m|
  {
    assert WithGroups(m, zero, keys[..0]) == m;
  }

  /** Once all keys of a chunk exist, only its first key can meet a full table. */
  lemma {:induction false} FillWhenPresent<V>(m: map<Key, V>, zero: V, keys: seq<Key>, n: nat, maxFill: nat)
    requires forall k :: k in keys ==> k in m
    requires n <= |keys| && |m| <= maxFill && 0 < maxFill
    ensures FillAfter(m, zero, keys, n, maxFill) == if n != 0 && |m| == maxFill then 2 * maxFill else maxFill
  {
    if n != 0 {
      FillWhenPresent(m, zero, keys, n - 1, maxFill);
      GroupsExist(m, zero, keys[..n - 1]);
    }
  }

  lemma {:induction false} GroupsFit<V>(m: map<Key, V>, zero: V, keys: seq<Key>, n: nat, maxFill: nat)
    requires n <= |keys| && |m| <= maxFill && 0 < maxFill
    ensures GroupCount(m, zero, keys, n) <= FillAfter(m, zero, keys, n, maxFill)
  {
    if n != 0 {
      GroupsFit(m, zero, keys, n - 1, maxFill);
      GroupCountStep(m, zero, keys, n - 1);
    } else {
      GroupCountStart(m, zero, keys);
    }
  }

  /** How often the primitive has to run for a chunk. */
  ghost function RunsNeeded<V>(m: map<Key, V>, zero: V, keys: seq<Key>, maxFill: nat): nat {
    var first := FillAfter(m, zero, keys, |keys|, maxFill);
    if first == maxFill then 1
    else if FillAfter(WithGroups(m, zero, keys), zero, keys, |keys|, first) == first then 2
    else 3
  }

  /** Two new keys in the smallest table need all three runs. */
  lemma ThreeRunsHappen<V>(zero: V, a: Key, b: Key)
    requires a != b
    ensures RunsNeeded(map[], zero, [a, b], 1) == 3
  {
    var none: map<Key, V> := map[];
    var keys := [a, b];
    GroupCountStart(none, zero, keys);
    GroupCountStep(none, zero, keys, 0);
    GroupCountStep(none, zero, keys, 1);
    assert keys[..0] == [] && keys[..1] == [a] && keys[..2] == keys;
    WithOneMoreGroup(none, zero, keys, 0);
    assert WithGroups(none, zero, keys[..1]) == map[a := zero];
    assert GroupCount(none, zero, keys, 1) == 1;
    assert FillAfter(none, zero, keys, 0, 1) == 1;
    assert FillAfter(none, zero, keys, 1, 1) == 1;
    assert FillAfter(none, zero, keys, 2, 1) == 2;
    GroupsArePadding(none, zero, keys);
    FillWhenPresent(WithGroups(none, zero, keys), zero, keys, 2, 2);
  }

  /** Where a run of the lookup primitive stands after `n` keys. `restart` is the flag that a doubling raises. */
  ghost predicate LookedUp<V(!new)>(table: HashTable<V>, start: map<Key, V>, limit: nat, keys: seq<Key>, n: nat, ptrs: seq<Pointer>,
                                    restart: bool)
    requires n <= |keys|
    reads table, table.tags, table.data
  {
    && table.Valid()
    && table.Contents() == WithGroups(start, table.zero.payload, keys[..n])
    && (!restart ==> Current(table, keys[..n], ptrs))
    && table.maxFill == FillAfter(start, table.zero.payload, keys, n, limit)
    && (restart <==> table.maxFill != limit)
  }

  method LookUpNext<V(!new)>(table: HashTable<V>, keys: seq<Key>, n: nat, ptrs: seq<Pointer>, restart: bool,
                             ghost start: map<Key, V>, ghost limit: nat)
    returns (ptrs': seq<Pointer>, restart': bool)
    requires n < |keys| && LookedUp(table, start, limit, keys, n, ptrs, restart)
    modifies table, table.tags, table.data
    ensures LookedUp(table, start, limit, keys, n + 1, ptrs', restart')
    ensures table.tags == old(table.tags) || fresh(table.tags)
    ensures table.data == old(table.data) || fresh(table.data)
  {
    var ptr, isNew, grew := PrimitiveStep(table, keys[..n], keys[n], ptrs);
    restart' := restart || grew;
    ptrs' := ptrs + [ptr];
    WithOneMoreGroup(start, table.zero.payload, keys, n);
    Prefix(keys, n);
  }

  /** One run of the lookup primitive over a chunk. */
  method RunPrimitive<V(!new)>(table: HashTable<V>, keys: seq<Key>) returns (ptrs: seq<Pointer>, restart: bool)
    requires table.Valid()
    modifies table, table.tags, table.data
    ensures table.Valid()
    ensures table.Contents() == WithGroups(old(table.Contents()), table.zero.payload, keys)
    ensures !restart ==> Current(table, keys, ptrs)
    ensures table.tags == old(table.tags) || fresh(table.tags)
    ensures table.data == old(table.data) || fresh(table.data)
    ensures table.maxFill == FillAfter(old(table.Contents()), table.zero.payload, keys, |keys|, old(table.maxFill))
    ensures restart <==> table.maxFill != old(table.maxFill)
  {
    ptrs, restart := [], false;
    ghost var start, limit := table.Contents(), table.maxFill;
    var i := 0;
    while i < |keys|
      invariant 0 <= i <= |keys| && LookedUp(table, start, limit, keys, i, ptrs, restart)
      invariant table.tags == old(table.tags) || fresh(table.tags)
      invariant table.data == old(table.data) || fresh(table.data)
    {
      ptrs, restart := LookUpNext(table, keys, i, ptrs, restart, start, limit);
      i := i + 1;
    }
    assert keys[..|keys|] == keys;
  }

  /**
   * Run the primitive until the flag stays down. This takes at most three runs: after the first one all groups exist, so
   * that the second one can double the table at most once, and after that there is room.
   */
  method RunMorselWithRetry<V(!new)>(table: HashTable<V>, keys: seq<Key>) returns (ptrs: seq<Pointer>, runs: nat)
    requires table.Valid()
    modifies table, table.tags, table.data
    ensures table.Valid()
    ensures table.Contents() == WithGroups(old(table.Contents()), table.zero.payload, keys)
    ensures Current(table, keys, ptrs)
    ensures runs == RunsNeeded(old(table.Contents()), table.zero.payload, keys, old(table.maxFill)) <= 3
    ensures table.tags == old(table.tags) || fresh(table.tags)
    ensures table.data == old(table.data) || fresh(table.data)
  {
    ghost var start, zero, limit := table.Contents(), table.zero.payload, table.maxFill;
    ghost var target := WithGroups(start, zero, keys);
    table.ContentsSize();
    var restart;
    ptrs, restart := RunPrimitive(table, keys);
    runs := 1;
    while restart
      invariant table.Valid() && table.Contents() == target
      invariant !restart ==> Current(table, keys, ptrs)
      invariant RetryState(start, zero, keys, limit, table.maxFill, runs, restart)
      invariant table.tags == old(table.tags) || fresh(table.tags)
      invariant table.data == old(table.data) || fresh(table.data)
      decreases 3 - runs
    {
      table.ContentsSize();
      RetryStep(start, zero, keys, limit, table.maxFill, runs, |table.Contents()|);
      ptrs, restart := RunPrimitive(table, keys);
      runs := runs + 1;
    }
  }

  /** Where the retry loop stands: the fill limit tells whether another run is due. */
  ghost predicate RetryState<V>(start: map<Key, V>, zero: V, keys: seq<Key>, limit: nat, maxFill: nat, runs: nat, restart: bool) {
    var target := WithGroups(start, zero, keys);
    var first := FillAfter(start, zero, keys, |keys|, limit);
    match runs
    case 1 => maxFill == first && (restart <==> first != limit)
    case 2 => maxFill == FillAfter(target, zero, keys, |keys|, first) && first != limit && (restart <==> maxFill != first)
    case 3 => RunsNeeded(start, zero, keys, limit) == 3 && !restart
    case _ => false
  }

  lemma RetryStep<V>(start: map<Key, V>, zero: V, keys: seq<Key>, limit: nat, maxFill: nat, runs: nat, size: nat)
    requires RetryState(start, zero, keys, limit, maxFill, runs, true)
    requires var target := WithGroups(start, zero, keys); size == |target| <= maxFill && 0 < maxFill
    requires |start| <= limit && 0 < limit
    ensures runs < 3
    ensures var target := WithGroups(start, zero, keys);
      && WithGroups(target, zero, keys) == target
      && RetryState(start, zero, keys, limit, FillAfter(target, zero, keys, |keys|, maxFill), runs + 1,
                    FillAfter(target, zero, keys, |keys|, maxFill) != maxFill)
  {
    var target := WithGroups(start, zero, keys);
    GroupsArePadding(start, zero, keys);
    GroupsExist(target, zero, keys);
    FillWhenPresent(target, zero, keys, |keys|, maxFill);
    if runs == 2 {
      GroupsFit(start, zero, keys, |keys|, limit);
      assert keys[..|keys|] == keys;
      FillWhenPresent(target, zero, keys, |keys|, FillAfter(start, zero, keys, |keys|, limit));
    }
  }

  /** One iteration: pointers that were current stay current unless the table doubles. */
  method PrimitiveStep<V(!new)>(table: HashTable<V>, ghost keys: seq<Key>, key: Key, ghost ptrs: seq<Pointer>)
    returns (ptr: Pointer, isNew: bool, grew: bool)
    requires table.Valid()
    modifies table, table.tags, table.data
    ensures table.Valid() && isNew == (key !in old(table.Contents()))
    ensures table.Contents() == var m := old(table.Contents()); if key in m then m else m[key := table.zero.payload]
    ensures !grew && old(Current(table, keys, ptrs)) ==> Current(table, keys + [key], ptrs + [ptr])
    ensures table.tags == old(table.tags) || fresh(table.tags)
    ensures table.data == old(table.data) || fresh(table.data)
    ensures grew == (|old(table.Contents())| >= old(table.maxFill))
    ensures table.maxFill == if grew then 2 * old(table.maxFill) else old(table.maxFill)
  {
    table.ContentsSize();
    ptr, isNew, grew := table.LookupOrInsert(key);
  }

  /** The update primitive: add every value through its pointer. */
  method UpdateThrough<V(!new)>(table: HashTable<V>, rows: seq<Row<V>>, ptrs: seq<Pointer>, add: (V, V) -> V)
    requires table.Valid() && Current(table, KeysOf(rows), ptrs)
    modifies table.data
    ensures table.Valid()
    ensures table.Contents() == Fold(old(table.Contents()), table.zero.payload, add, rows)
  {
    for i := 0 to |rows|
      invariant table.Valid() && Current(table, KeysOf(rows), ptrs)
      invariant table.Contents() == Fold(old(table.Contents()), table.zero.payload, add, rows[..i])
    {
      assert KeysOf(rows)[i] == rows[i].key;
      table.AddThrough(ptrs[i], rows[i].key, rows[i].payload, add);
      Prefix(rows, i);
    }
    assert rows[..|rows|] == rows;
  }

  /**
   * Main theorem: looking all groups of a chunk up first, with retries, and then updating through the pointers has the
   * same effect as the fused loop, although the table may double in the middle of the chunk.
   */
  method RunVectorised<V(!new)>(table: HashTable<V>, rows: seq<Row<V>>, add: (V, V) -> V)
    requires table.Valid()
    modifies table, table.tags, table.data
    ensures table.Valid()
    ensures table.Contents() == Fold(old(table.Contents()), table.zero.payload, add, rows)
    ensures table.tags == old(table.tags) || fresh(table.tags)
    ensures table.data == old(table.data) || fresh(table.data)
  {
    var ptrs, runs := RunMorselWithRetry(table, KeysOf(rows));
    UpdateThrough(table, rows, ptrs, add);
    GroupsFirst(old(table.Contents()), table.zero.payload, add, rows);
  }
}
