/**
 * The build phase of a join as one worker runs it: count the materialised tuples, allocate the table, and move the tuples into
 * it, chunk by chunk and in batches that are hashed first. Interleavings of several workers are the subject of AtomicBuild.
 */
module JoinBuild {
  import opened Options
  import opened Hashing
  import opened Bags
  import opened ProbeChain
  import opened AtomicTable
  import opened AtomicBuild
  import opened Products
  import opened Sizing
  import opened TupleMaterializer

  const BATCH_SIZE: nat := 256

  // ---------------------------------------------------------------------------------------------
  // What a table holds
  // ---------------------------------------------------------------------------------------------

  /** Under any weight the filled slots weigh as much as `rows`: they hold the same rows, each as often. */
  ghost predicate Weighs<V>(tags: seq<bv8>, data: seq<Row<V>>, rows: seq<Row<V>>, f: Row<V> -> nat) {
    |tags| == |data| && Total(Stored(tags, data), f) == Total(rows, f)
  }

  /** The slots hold `rows`, each in reach of its home and under the tag of its hash. */
  ghost predicate HoldsRows<V(!new)>(hash: Key -> Hash, mask: nat, tags: seq<bv8>, data: seq<Row<V>>, rows: seq<Row<V>>) {
    && |tags| == |data| == mask + 1
    && (forall i :: 0 <= i <= mask ==> SlotInChain(hash, mask, TargetTag, tags, data, i))
    && (forall f: Row<V> -> nat :: Weighs(tags, data, rows, f))
  }

  ghost predicate Holds<V(!new)>(table: AtomicHashTable<V>, rows: seq<Row<V>>)
    reads table, table.tags, table.data
  {
    && (table.tags as object) != (table.data as object)
    && HoldsRows(table.hash, table.modMask, table.tags[..], table.data[..], rows)
  }

  /** The buffer for the hashes is no part of the table. */
  ghost predicate Apart<V(!new)>(table: AtomicHashTable<V>, hashes: array<Hash>) {
    (hashes as object) != (table.tags as object) && (hashes as object) != (table.data as object)
  }

  lemma {:induction false} FillOne<V>(tags: seq<bv8>, data: seq<Row<V>>, slot: nat, tag: bv8, row: Row<V>, f: Row<V> -> nat)
    requires slot < |tags| == |data| && !Filled(tags[slot]) && Filled(tag)
    ensures Total(Stored(tags[slot := tag], data[slot := row]), f) == Total(Stored(tags, data), f) + f(row)
  {
    var tags', data' := tags[slot := tag], data[slot := row];
    if slot == 0 {
      assert tags'[1..] == tags[1..] && data'[1..] == data[1..];
      assert Stored(tags', data') == [row] + Stored(tags, data);
      TotalConcat([row], Stored(tags, data), f);
      WeightOfOne(row, f);
    } else {
      FillOne(tags[1..], data[1..], slot - 1, tag, row, f);
      assert tags'[1..] == tags[1..][slot - 1 := tag] && data'[1..] == data[1..][slot - 1 := row];
      var first := if Filled(tags[0]) then [data[0]] else [];
      TotalConcat(first, Stored(tags[1..], data[1..]), f);
      TotalConcat(first, Stored(tags'[1..], data'[1..]), f);
    }
  }

  lemma WeightOfOne<V>(row: Row<V>, f: Row<V> -> nat)
    ensures Total([row], f) == f(row)
  {
    assert [row][1..] == [];
  }

  lemma {:induction false} AllFilled<V>(tags: seq<bv8>, data: seq<Row<V>>)
    requires |tags| == |data| && forall i :: 0 <= i < |tags| ==> Filled(tags[i])
    ensures |Stored(tags, data)| == |tags|
  {
    if tags != [] {
      AllFilled(tags[1..], data[1..]);
    }
  }

  /** As long as there are fewer rows than slots, there is a free one. */
  lemma FreeIsLeft<V>(tags: seq<bv8>, data: seq<Row<V>>, rows: seq<Row<V>>)
    requires Weighs(tags, data, rows, Each()) && |rows| < |tags|
    ensures HasFree(tags)
  {
    TotalEach(Stored(tags, data));
    TotalEach(rows);
    if !HasFree(tags) {
      AllFilled(tags, data);
    }
  }

  /** A claimed slot joins the chains, and no other slot notices. */
  lemma FillKeepsChains<V(!new)>(hash: Key -> Hash, mask: nat, tags: seq<bv8>, data: seq<Row<V>>, rows: seq<Row<V>>, slot: nat,
                                 row: Row<V>)
    requires HoldsRows(hash, mask, tags, data, rows) && slot <= mask && !Filled(tags[slot])
    requires PathFilled(tags, mask, Home(hash, mask, row.key), slot)
    ensures HoldsRows(hash, mask, tags[slot := TargetTag(hash(row.key))], data[slot := row], rows + [row])
  {
    var tags', data' := tags[slot := TargetTag(hash(row.key))], data[slot := row];
    forall i | 0 <= i <= mask ensures SlotInChain(hash, mask, TargetTag, tags', data', i) {
      assert SlotInChain(hash, mask, TargetTag, tags, data, i);
      if Filled(tags'[i]) {
        PathMonotone(tags, tags', mask, Home(hash, mask, data'[i].key), i);
      }
    }
    forall f: Row<V> -> nat ensures Weighs(tags', data', rows + [row], f) {
      assert Weighs(tags, data, rows, f);
      FillOne(tags, data, slot, TargetTag(hash(row.key)), row, f);
      TotalConcat(rows, [row], f);
      WeightOfOne(row, f);
    }
  }

  lemma HoldsIsChained<V(!new)>(hash: Key -> Hash, mask: nat, tags: seq<bv8>, data: seq<Row<V>>, rows: seq<Row<V>>)
    requires HoldsRows(hash, mask, tags, data, rows) && |rows| <= mask
    ensures Table(hash, mask, TargetTag, tags, data) && Chained(hash, mask, tags, data)
    ensures multiset(Stored(tags, data)) == multiset(rows)
  {
    assert Weighs(tags, data, rows, Each());
    FreeIsLeft(tags, data, rows);
    TableIsChained(hash, mask, TargetTag, tags, data);
    forall f: Row<V> -> nat ensures Total(Stored(tags, data), f) == Total(rows, f) {
      assert Weighs(tags, data, rows, f);
    }
    SameWeights(Stored(tags, data), rows);
  }

  method InsertOne<V(!new)>(table: AtomicHashTable<V>, row: Row<V>, h: Hash, ghost rows: seq<Row<V>>)
    requires Holds(table, rows) && |rows| <= table.modMask && h == table.hash(row.key)
    modifies table.tags, table.data
    ensures Holds(table, rows + [row])
  {
    ghost var ts, ds := table.tags[..], table.data[..];
    HoldsIsChained(table.hash, table.modMask, ts, ds, rows);
    var slot := table.Insert(row, h, false);
    FillKeepsChains(table.hash, table.modMask, ts, ds, rows, slot, row);
  }

  // ---------------------------------------------------------------------------------------------
  // Batches
  // ---------------------------------------------------------------------------------------------

  /** The tuple at a byte offset. */
  function RowAt<V>(chunk: MatChunk<V>, tupleSize: nat, offset: nat): Row<V>
    requires tupleSize > 0 && offset / tupleSize < |chunk.rows|
  {
    chunk.rows[offset / tupleSize]
  }

  /** Hashes one batch of tuples. */
  method HashBatch<V>(chunk: MatChunk<V>, tupleSize: nat, first: nat, batch: nat, hash: Key -> Hash, hashes: array<Hash>)
    requires tupleSize > 0 && batch <= hashes.Length && first + batch <= |chunk.rows|
    modifies hashes
    ensures forall i :: 0 <= i < batch ==> hashes[i] == hash(chunk.rows[first + i].key)
  {
    var it := tupleSize * first;
    for i := 0 to batch
      invariant it == tupleSize * (first + i)
      invariant forall j :: 0 <= j < i ==> hashes[j] == hash(chunk.rows[first + j].key)
    {
      Quotient(first + i, tupleSize);
      hashes[i] := hash(RowAt(chunk, tupleSize, it).key);
      it := it + tupleSize;
    }
  }

  /** Where tuple `k` of a chunk begins. */
  ghost function Begin(tupleSize: nat, k: nat): nat {
    if k == 0 then 0 else Begin(tupleSize, k - 1) + tupleSize
  }

  lemma {:induction false} BeginIs(tupleSize: nat, k: nat)
    ensures Begin(tupleSize, k) == tupleSize * k
  {
    if k != 0 {
      BeginIs(tupleSize, k - 1);
      assert tupleSize * k == tupleSize * (k - 1) + tupleSize;
    }
  }

  /** Inserts the tuple at an offset, and moves on. */
  method InsertNext<V(!new)>(table: AtomicHashTable<V>, chunk: MatChunk<V>, tupleSize: nat, curr: nat, ghost k: nat, h: Hash,
                             ghost rows: seq<Row<V>>) returns (next: nat)
    requires tupleSize > 0 && curr == Begin(tupleSize, k) && k < |chunk.rows| && h == table.hash(chunk.rows[k].key)
    requires Holds(table, rows) && |rows| <= table.modMask
    modifies table.tags, table.data
    ensures Holds(table, rows + [chunk.rows[k]]) && next == Begin(tupleSize, k + 1)
  {
    BeginIs(tupleSize, k);
    Quotient(k, tupleSize);
    InsertOne(table, RowAt(chunk, tupleSize, curr), h, rows);
    next := curr + tupleSize;
  }

  /** Inserts one batch of tuples, those from `first` to `end`, under the hashes of the buffer. */
  method InsertBatch<V(!new)>(table: AtomicHashTable<V>, chunk: MatChunk<V>, tupleSize: nat, start: nat, ghost first: nat,
                              batch: nat, ghost end: nat, hashes: array<Hash>, ghost rows: seq<Row<V>>) returns (curr: nat)
    requires tupleSize > 0 && start == Begin(tupleSize, first) && batch <= hashes.Length && end == first + batch <= |chunk.rows|
    requires forall i :: 0 <= i < batch ==> hashes[i] == table.hash(chunk.rows[first + i].key)
    requires Apart(table, hashes) && Holds(table, rows) && |rows| + batch <= table.modMask + 1
    modifies table.tags, table.data
    ensures Holds(table, rows + chunk.rows[first..end]) && curr == Begin(tupleSize, end)
  {
    ghost var held, k := rows, first;
    curr := start;
    var i := 0;
    assert held == rows + chunk.rows[first..first];
    while i < batch
      invariant 0 <= i <= batch && k == first + i && curr == Begin(tupleSize, k)
      invariant held == rows + chunk.rows[first..k] && Holds(table, held)
    {
      ghost var more := held + [chunk.rows[k]];
      OneMoreRow(chunk.rows, first, k, rows);
      assert hashes[i] == table.hash(chunk.rows[k].key);
      curr := InsertNext(table, chunk, tupleSize, curr, k, hashes[i], held);
      held, k, i := more, k + 1, i + 1;
    }
    assert k == end;
  }

  lemma OneMoreRow<V>(all: seq<Row<V>>, first: nat, k: nat, rows: seq<Row<V>>)
    requires first <= k < |all|
    ensures rows + all[first..k] + [all[k]] == rows + all[first..k + 1]
  {
  }

  /** How many tuples lie between two offsets of a chunk. */
  lemma TuplesLeft(tupleSize: nat, done: nat, count: nat)
    requires tupleSize > 0 && done <= count
    ensures (tupleSize * count - tupleSize * done) / tupleSize == count - done
    ensures tupleSize * done < tupleSize * count <==> done < count
  {
    Distribute(tupleSize, count, done);
    Quotient(count - done, tupleSize);
    if done < count {
      AtLeastOnce(tupleSize, count - done);
    }
  }

  /** The next batch of a chunk of which `done` tuples are in the table. */
  method NextBatch<V(!new)>(table: AtomicHashTable<V>, chunk: MatChunk<V>, tupleSize: nat, curr: nat, ghost done: nat,
                            hashes: array<Hash>, ghost rows: seq<Row<V>>) returns (next: nat, ghost done': nat)
    requires tupleSize > 0 && ChunkOk(chunk, tupleSize) && hashes.Length == BATCH_SIZE && Apart(table, hashes)
    requires curr == Begin(tupleSize, done) && done < |chunk.rows|
    requires Holds(table, rows) && |rows| + (|chunk.rows| - done) <= table.modMask + 1
    modifies hashes, table.tags, table.data
    ensures done < done' <= |chunk.rows| && next == Begin(tupleSize, done') && (next < chunk.endOffset <==> done' < |chunk.rows|)
    ensures Holds(table, rows + chunk.rows[done..done'])
  {
    BeginIs(tupleSize, done);
    TuplesLeft(tupleSize, done, |chunk.rows|);
    var left := (chunk.endOffset - curr) / tupleSize;
    var batch := if left < BATCH_SIZE then left else BATCH_SIZE;
    Quotient(done, tupleSize);
    HashBatch(chunk, tupleSize, curr / tupleSize, batch, table.hash, hashes);
    done' := done + batch;
    next := InsertBatch(table, chunk, tupleSize, curr, done, batch, done', hashes, rows);
    BeginIs(tupleSize, done');
    TuplesLeft(tupleSize, done', |chunk.rows|);
  }

  lemma AnyTuple<V>(chunk: MatChunk<V>, tupleSize: nat)
    requires tupleSize > 0 && ChunkOk(chunk, tupleSize)
    ensures 0 < chunk.endOffset <==> 0 < |chunk.rows|
  {
    TuplesLeft(tupleSize, 0, |chunk.rows|);
  }

  /** Traverses a chunk in batches: every tuple is inserted once. */
  method InsertChunk<V(!new)>(table: AtomicHashTable<V>, chunk: MatChunk<V>, tupleSize: nat, hashes: array<Hash>,
                              ghost rows: seq<Row<V>>)
    requires tupleSize > 0 && ChunkOk(chunk, tupleSize) && hashes.Length == BATCH_SIZE && Apart(table, hashes)
    requires Holds(table, rows) && |rows| + |chunk.rows| <= table.modMask + 1
    modifies hashes, table.tags, table.data
    ensures Holds(table, rows + chunk.rows)
  {
    var curr: nat := 0;
    ghost var done: nat := 0;
    ghost var held := rows;
    AnyTuple(chunk, tupleSize);
    while curr < chunk.endOffset
      invariant done <= |chunk.rows| && curr == Begin(tupleSize, done)
      invariant curr < chunk.endOffset <==> done < |chunk.rows|
      invariant held == rows + chunk.rows[..done] && Holds(table, held)
      decreases |chunk.rows| - done
    {
      ghost var done';
      curr, done' := NextBatch(table, chunk, tupleSize, curr, done, hashes, held);
      MoreRows(chunk.rows, done, done', rows);
      held, done := held + chunk.rows[done..done'], done';
    }
    assert chunk.rows[..|chunk.rows|] == chunk.rows;
  }

  lemma MoreRows<V>(all: seq<Row<V>>, done: nat, done': nat, rows: seq<Row<V>>)
    requires done <= done' <= |all|
    ensures rows + all[..done] + all[done..done'] == rows + all[..done']
  {
  }

  /** A worker that reads a handle alone inserts every tuple that is left, once. */
  method DrainHandle<V(!new)>(table: AtomicHashTable<V>, handle: ReadHandle<V>, tupleSize: nat, hashes: array<Hash>,
                              ghost rows: seq<Row<V>>)
    requires tupleSize > 0 && handle.offset == 0 && hashes.Length == BATCH_SIZE && Apart(table, hashes)
    requires (handle as object) != (table as object)
    requires AllOk(handle.chunks, tupleSize)
    requires Holds(table, rows) && |rows| + |Flatten(RowsOf(handle.chunks))| <= table.modMask + 1
    modifies handle, hashes, table.tags, table.data
    ensures Holds(table, rows + Flatten(RowsOf(handle.chunks)))
  {
    ghost var held := rows;
    ghost var n: nat := 0;
    var chunk := handle.PullChunk();
    while chunk.Some?
      invariant n <= |handle.chunks| && handle.offset == n + 1
      invariant chunk == if n < |handle.chunks| then Some(handle.chunks[n]) else None
      invariant held == rows + Flatten(RowsOf(handle.chunks[..n])) && Holds(table, held)
      decreases |handle.chunks| - n
    {
      PrefixIsShorter(handle.chunks, n + 1);
      OneMoreChunk(handle.chunks, n, rows);
      InsertChunk(table, chunk.value, tupleSize, hashes, held);
      held := held + handle.chunks[n].rows;
      n := n + 1;
      chunk := handle.PullChunk();
    }
    assert handle.chunks[..|handle.chunks|] == handle.chunks;
  }

  lemma OneMoreChunk<V>(chunks: seq<MatChunk<V>>, n: nat, rows: seq<Row<V>>)
    requires n < |chunks|
    ensures rows + Flatten(RowsOf(chunks[..n])) + chunks[n].rows == rows + Flatten(RowsOf(chunks[..n + 1]))
  {
    RowsOfLast(chunks[..n], chunks[n]);
    assert chunks[..n + 1] == chunks[..n] + [chunks[n]];
  }

  lemma PrefixIsShorter<V>(chunks: seq<MatChunk<V>>, n: nat)
    requires n <= |chunks|
    ensures |Flatten(RowsOf(chunks[..n]))| <= |Flatten(RowsOf(chunks))|
  {
    assert RowsOf(chunks) == RowsOf(chunks[..n]) + RowsOf(chunks[n..]);
    FlattenConcat(RowsOf(chunks[..n]), RowsOf(chunks[n..]));
  }

  // ---------------------------------------------------------------------------------------------
  // The size of the join table
  // ---------------------------------------------------------------------------------------------

  /** What the build phase reads. */
  ghost function Materialised<V>(mats: seq<Materializer<V>>, n: nat): seq<seq<seq<Row<V>>>>
    requires n <= |mats|
    reads mats
  {
    if n == 0 then [] else Materialised(mats, n - 1) + [RowsOf(mats[n - 1].chunks)]
  }

  lemma {:induction false} MaterialisedRowsLast<V>(ms: seq<seq<seq<Row<V>>>>, m: seq<seq<Row<V>>>)
    ensures MaterialisedRows(ms + [m]) == MaterialisedRows(ms) + Flatten(m)
  {
    if ms == [] {
      assert [m][1..] == [] && ms + [m] == [m];
    } else {
      assert (ms + [m])[1..] == ms[1..] + [m];
      MaterialisedRowsLast(ms[1..], m);
    }
  }

  /** Counts the rows of all threads and allocates a table that ends up with free slots to spare. */
  method AllocHashTable<V(!new)>(word: nat, mats: seq<Materializer<V>>, hash: Key -> Hash, zero: Row<V>)
    returns (table: AtomicHashTable<V>)
    requires forall i :: 0 <= i < |mats| ==> mats[i].Valid() && mats[i].tupleSize > 0
    requires word >= 2 && 2 * |MaterialisedRows(Materialised(mats, |mats|))| <= Pow2(word - 1)
    ensures fresh(table) && fresh(table.tags) && fresh(table.data) && table.hash == hash && Holds(table, [])
    ensures var rows := |MaterialisedRows(Materialised(mats, |mats|))|;
      table.modMask + 1 == JoinSlots(word, rows) && rows <= table.modMask && 2 * rows <= table.modMask + 1
  {
    var rows := CountRows(mats);
    JoinTableFits(word, rows);
    table := new AtomicHashTable(hash, JoinSlots(word, rows), zero);
    NothingStored(table.tags[..], table.data[..]);
    NothingHeld(hash, table.modMask, table.tags[..], table.data[..]);
  }

  lemma NothingHeld<V(!new)>(hash: Key -> Hash, mask: nat, tags: seq<bv8>, data: seq<Row<V>>)
    requires |tags| == |data| == mask + 1 && (forall i :: 0 <= i <= mask ==> tags[i] == 0) && Stored(tags, data) == []
    ensures HoldsRows(hash, mask, tags, data, [])
  {
    forall i | 0 <= i <= mask ensures SlotInChain(hash, mask, TargetTag, tags, data, i) {
    }
    forall f: Row<V> -> nat ensures Weighs(tags, data, [], f) {
    }
  }

  method CountRows<V>(mats: seq<Materializer<V>>) returns (rows: nat)
    requires forall i :: 0 <= i < |mats| ==> mats[i].Valid() && mats[i].tupleSize > 0
    ensures rows == |MaterialisedRows(Materialised(mats, |mats|))|
  {
    rows := 0;
    for i := 0 to |mats|
      invariant rows == |MaterialisedRows(Materialised(mats, i))|
    {
      var found := mats[i].GetNumTuples();
      MaterialisedRowsLast(Materialised(mats, i), RowsOf(mats[i].chunks));
      rows := rows + found;
    }
  }

  // ---------------------------------------------------------------------------------------------
  // The whole build
  // ---------------------------------------------------------------------------------------------

  /** All tuples of the first `n` stores of chunks. */
  ghost function TuplesOf<V>(stores: seq<seq<MatChunk<V>>>, n: nat): seq<Row<V>>
    requires n <= |stores|
  {
    if n == 0 then [] else TuplesOf(stores, n - 1) + Flatten(RowsOf(stores[n - 1]))
  }

  lemma {:induction false} FewerTuples<V>(stores: seq<seq<MatChunk<V>>>, i: nat, n: nat)
    requires i <= n <= |stores|
    ensures |TuplesOf(stores, i)| <= |TuplesOf(stores, n)|
  {
    if i < n {
      FewerTuples(stores, i, n - 1);
    }
  }

  /** What the read handles read: the chunks of every materialiser. */
  method ReadStores<V>(mats: seq<Materializer<V>>, tupleSize: nat) returns (stores: seq<seq<MatChunk<V>>>)
    requires forall i :: 0 <= i < |mats| ==> mats[i].Valid() && mats[i].tupleSize == tupleSize
    ensures forall i :: 0 <= i < |stores| ==> AllOk(stores[i], tupleSize)
    ensures TuplesOf(stores, |stores|) == MaterialisedRows(Materialised(mats, |mats|))
  {
    stores := [];
    var i := 0;
    while i < |mats|
      invariant 0 <= i <= |mats| && |stores| == i && forall j :: 0 <= j < i ==> AllOk(stores[j], tupleSize)
      invariant TuplesOf(stores, i) == MaterialisedRows(Materialised(mats, i))
    {
      MaterialisedRowsLast(Materialised(mats, i), RowsOf(mats[i].chunks));
      TuplesOfPrefix(stores, mats[i].chunks, i);
      stores := stores + [mats[i].chunks];
      i := i + 1;
    }
  }

  lemma {:induction false} TuplesOfPrefix<V>(stores: seq<seq<MatChunk<V>>>, store: seq<MatChunk<V>>, n: nat)
    requires n <= |stores|
    ensures TuplesOf(stores + [store], n) == TuplesOf(stores, n)
  {
    if n != 0 {
      TuplesOfPrefix(stores, store, n - 1);
    }
  }

  ghost predicate AllOk<V>(chunks: seq<MatChunk<V>>, tupleSize: nat) {
    forall c :: 0 <= c < |chunks| ==> ChunkOk(chunks[c], tupleSize)
  }

  /** One handle after the other. */
  method FillTable<V(!new)>(table: AtomicHashTable<V>, stores: seq<seq<MatChunk<V>>>, tupleSize: nat, hashes: array<Hash>)
    requires tupleSize > 0 && hashes.Length == BATCH_SIZE && Apart(table, hashes)
    requires forall i :: 0 <= i < |stores| ==> AllOk(stores[i], tupleSize)
    requires Holds(table, []) && |TuplesOf(stores, |stores|)| <= table.modMask
    modifies hashes, table.tags, table.data
    ensures Holds(table, TuplesOf(stores, |stores|))
  {
    ghost var rows: seq<Row<V>> := [];
    var i := 0;
    while i < |stores|
      invariant 0 <= i <= |stores| && Holds(table, rows)
      invariant rows == TuplesOf(stores, i)
    {
      FewerTuples(stores, i + 1, |stores|);
      var handle := new ReadHandle(stores[i]);
      DrainHandle(table, handle, tupleSize, hashes, rows);
      rows := rows + Flatten(RowsOf(stores[i]));
      i := i + 1;
    }
  }

  /**
   * Main theorem, on one worker: the table ends up with exactly the rows that all threads have materialised, chained, tagged, and
   * with a free slot, which is what the probes rely on.
   */
  method BuildAlone<V(!new)>(word: nat, mats: seq<Materializer<V>>, tupleSize: nat, hash: Key -> Hash, zero: Row<V>)
    returns (table: AtomicHashTable<V>)
    requires tupleSize > 0 && forall i :: 0 <= i < |mats| ==> mats[i].Valid() && mats[i].tupleSize == tupleSize
    requires word >= 2 && 2 * |MaterialisedRows(Materialised(mats, |mats|))| <= Pow2(word - 1)
    ensures table.hash == hash && Table(hash, table.modMask, TargetTag, table.tags[..], table.data[..])
    ensures multiset(Stored(table.tags[..], table.data[..])) == multiset(old(MaterialisedRows(Materialised(mats, |mats|))))
  {
    ghost var all := MaterialisedRows(Materialised(mats, |mats|));
    var stores := ReadStores(mats, tupleSize);
    table := AllocHashTable(word, mats, hash, zero);
    FillNew(table, stores, tupleSize, all);
  }

  method FillNew<V(!new)>(table: AtomicHashTable<V>, stores: seq<seq<MatChunk<V>>>, tupleSize: nat, ghost all: seq<Row<V>>)
    requires tupleSize > 0 && forall i :: 0 <= i < |stores| ==> AllOk(stores[i], tupleSize)
    requires Holds(table, []) && all == TuplesOf(stores, |stores|) && |all| <= table.modMask
    modifies table.tags, table.data
    ensures Table(table.hash, table.modMask, TargetTag, table.tags[..], table.data[..])
    ensures multiset(Stored(table.tags[..], table.data[..])) == multiset(all)
  {
    var hashes := new Hash[BATCH_SIZE](_ => 0);
    FillTable(table, stores, tupleSize, hashes);
    HoldsIsChained(table.hash, table.modMask, table.tags[..], table.data[..], all);
  }
}
