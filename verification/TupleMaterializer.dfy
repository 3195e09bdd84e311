/**
 * Materialising tuples into chunks of raw memory, and reading them back: the sink of a join build, and the cursors that hand
 * out its chunks. Chunk memory is addressed by byte offsets.
 */
module TupleMaterializer {
  import opened Options
  import opened Hashing
  import opened Bags
  import opened Products

  const REGION_SIZE: nat := 16384

  /** A chunk: where its used part ends, and the tuples in there. */
  datatype MatChunk<V> = MatChunk(endOffset: nat, rows: seq<Row<V>>)

  /** An address handed out for a tuple. */
  datatype Slot = Slot(chunk: nat, offset: nat)

  /**
   * Tuples lie next to each other from the start of the region. A chunk only fills its region to the last byte if a single
   * tuple does.
   */
  ghost predicate ChunkOk<V>(chunk: MatChunk<V>, tupleSize: nat) {
    && chunk.endOffset == tupleSize * |chunk.rows| <= REGION_SIZE
    && (chunk.endOffset == REGION_SIZE ==> |chunk.rows| == 1)
  }

  function RowsOf<V>(chunks: seq<MatChunk<V>>): seq<seq<Row<V>>> {
    seq(|chunks|, i requires 0 <= i < |chunks| => chunks[i].rows)
  }

  lemma {:induction false} FlattenConcat<A>(xss: seq<seq<A>>, yss: seq<seq<A>>)
    ensures Flatten(xss + yss) == Flatten(xss) + Flatten(yss)
  {
    if xss == [] {
      assert xss + yss == yss;
    } else {
      assert (xss + yss)[1..] == xss[1..] + yss;
      FlattenConcat(xss[1..], yss);
    }
  }

  lemma RowsOfLast<V>(chunks: seq<MatChunk<V>>, chunk: MatChunk<V>)
    ensures Flatten(RowsOf(chunks + [chunk])) == Flatten(RowsOf(chunks)) + chunk.rows
  {
    assert RowsOf(chunks + [chunk]) == RowsOf(chunks) + [chunk.rows];
    assert [chunk.rows][1..] == [];
    FlattenConcat(RowsOf(chunks), [chunk.rows]);
  }

  /** Two slots of one chunk do not overlap. */
  ghost predicate Disjoint(a: Slot, b: Slot, tupleSize: nat) {
    a.chunk == b.chunk ==> a.offset + tupleSize <= b.offset || b.offset + tupleSize <= a.offset
  }

  /** The slot lies in the used part of its chunk. */
  ghost predicate InUse<V>(chunks: seq<MatChunk<V>>, s: Slot, tupleSize: nat) {
    s.chunk < |chunks| && s.offset + tupleSize <= chunks[s.chunk].endOffset
  }

  class Materializer<V> {
    const tupleSize: nat
    var chunks: seq<MatChunk<V>>
    /** All slots handed out so far. */
    ghost var slots: seq<Slot>

    ghost predicate Valid()
      reads this
    {
      && tupleSize <= REGION_SIZE && |chunks| > 0
      && (forall c :: 0 <= c < |chunks| ==> ChunkOk(chunks[c], tupleSize))
      && |slots| == |Rows()|
      && (forall i :: 0 <= i < |slots| ==> InUse(chunks, slots[i], tupleSize))
      && (forall i, j :: 0 <= i < j < |slots| ==> Disjoint(slots[i], slots[j], tupleSize))
    }

    /** The tuples in the order in which they were materialised. */
    ghost function Rows(): seq<Row<V>>
      reads this
    {
      Flatten(RowsOf(chunks))
    }

    constructor (tupleSize: nat)
      requires tupleSize <= REGION_SIZE
      ensures Valid() && Rows() == [] && slots == [] && this.tupleSize == tupleSize
    {
      this.tupleSize := tupleSize;
      this.chunks := [MatChunk(0, [])];
      this.slots := [];
      new;
      var none: seq<MatChunk<V>> := [];
      RowsOfLast(none, MatChunk(0, []));
      assert none + [MatChunk(0, [])] == chunks && RowsOf(none) == [];
    }

    /** Tuples that exceed the region are rejected. */
    static method Create(tupleSize: nat) returns (r: Option<Materializer<V>>)
      ensures r.Some? <==> tupleSize <= REGION_SIZE
      ensures r.Some? ==> fresh(r.value) && r.value.Valid() && r.value.Rows() == [] && r.value.tupleSize == tupleSize
    {
      if tupleSize > REGION_SIZE {
        return None;
      }
      var m := new Materializer(tupleSize);
      return Some(m);
    }

    method AllocNewChunk()
      requires Valid()
      modifies this`chunks
      ensures Valid() && Rows() == old(Rows()) && chunks == old(chunks) + [MatChunk(0, [])]
    {
      RowsOfLast(chunks, MatChunk(0, []));
      chunks := chunks + [MatChunk(0, [])];
    }

    /**
     * Hands out the next slot, into which the caller writes its tuple. The slot is in bounds and overlaps no other one, so
     * that nothing materialised earlier is lost.
     */
    method Materialize(row: Row<V>) returns (slot: Slot)
      requires Valid()
      modifies this
      ensures Valid() && Rows() == old(Rows()) + [row]
      ensures slots == old(slots) + [slot] && slot.offset + tupleSize <= REGION_SIZE
      ensures var full := old(chunks[|chunks| - 1].endOffset) + tupleSize >= REGION_SIZE;
        |chunks| == (if full then |old(chunks)| + 1 else |old(chunks)|) && slot.chunk == |chunks| - 1
      ensures slot.chunk < |chunks| && chunks[slot.chunk].rows != []
      ensures var rows := chunks[slot.chunk].rows; slot.offset == tupleSize * (|rows| - 1) && rows[|rows| - 1] == row
    {
      if chunks[|chunks| - 1].endOffset + tupleSize >= REGION_SIZE {
        AllocNewChunk();
      }
      var c := |chunks| - 1;
      slot := Slot(c, chunks[c].endOffset);
      AppendTo(row, slot);
    }

    /** Reserves a slot at the end of the last chunk, in which there is room. */
    method AppendTo(row: Row<V>, slot: Slot)
      requires Valid() && slot == Slot(|chunks| - 1, chunks[|chunks| - 1].endOffset)
      requires slot.offset + tupleSize < REGION_SIZE || slot.offset == 0
      modifies this
      ensures Valid() && Rows() == old(Rows()) + [row] && slots == old(slots) + [slot]
      ensures chunks == old(chunks)[slot.chunk := MatChunk(slot.offset + tupleSize, old(chunks[slot.chunk].rows) + [row])]
    {
      var before, last := chunks[..slot.chunk], chunks[slot.chunk];
      var grown := MatChunk(last.endOffset + tupleSize, last.rows + [row]);
      RowsOfLast(before, last);
      RowsOfLast(before, grown);
      assert chunks == before + [last];
      assert chunks[slot.chunk := grown] == before + [grown];
      GrownIsOk(last, tupleSize, row);
      chunks := chunks[slot.chunk := grown];
      slots := slots + [slot];
    }

    /** The total number of tuples, from the ends of the chunks. */
    method GetNumTuples() returns (found: nat)
      requires Valid() && tupleSize > 0
      ensures found == |Rows()|
    {
      found := 0;
      for c := 0 to |chunks|
        invariant found == |Flatten(RowsOf(chunks[..c]))|
      {
        Quotient(|chunks[c].rows|, tupleSize);
        RowsOfLast(chunks[..c], chunks[c]);
        assert chunks[..c + 1] == chunks[..c] + [chunks[c]];
        found := found + chunks[c].endOffset / tupleSize;
      }
      assert chunks[..|chunks|] == chunks;
    }
  }

  lemma GrownIsOk<V>(chunk: MatChunk<V>, tupleSize: nat, row: Row<V>)
    requires tupleSize <= REGION_SIZE && ChunkOk(chunk, tupleSize)
    requires chunk.endOffset + tupleSize < REGION_SIZE || chunk.endOffset == 0
    ensures ChunkOk(MatChunk(chunk.endOffset + tupleSize, chunk.rows + [row]), tupleSize)
  {
    assert tupleSize * (|chunk.rows| + 1) == tupleSize * |chunk.rows| + tupleSize;
    if chunk.endOffset == 0 && |chunk.rows| > 0 {
      AtLeastOnce(tupleSize, |chunk.rows|);
    }
  }

  // ---------------------------------------------------------------------------------------------
  // Reading
  // ---------------------------------------------------------------------------------------------

  /** The cursor that the readers share. Its increment is atomic. */
  class ReadHandle<V> {
    const chunks: seq<MatChunk<V>>
    var offset: nat

    constructor (chunks: seq<MatChunk<V>>)
      ensures this.chunks == chunks && offset == 0
    {
      this.chunks, this.offset := chunks, 0;
    }

    /** Every call gets a chunk of its own until there are none left. */
    method PullChunk() returns (chunk: Option<MatChunk<V>>)
      modifies this
      ensures offset == old(offset) + 1
      ensures chunk == if old(offset) < |chunks| then Some(chunks[old(offset)]) else None
    {
      var readOffset := offset;
      offset := offset + 1;
      return if readOffset < |chunks| then Some(chunks[readOffset]) else None;
    }
  }

  /** Readers that share a handle: the cursor, and the chunk numbers that each of them has pulled. */
  datatype Reading = Reading(offset: nat, pulled: seq<seq<nat>>)

  /** Reader `r` pulls from a handle of `n` chunks, by one atomic increment of the cursor. */
  function Pull(n: nat, s: Reading, r: nat): Reading
    requires r < |s.pulled|
  {
    Reading(s.offset + 1, if s.offset < n then s.pulled[r := s.pulled[r] + [s.offset]] else s.pulled)
  }

  function PullAll(n: nat, s: Reading, schedule: seq<nat>): (s': Reading)
    requires forall i :: 0 <= i < |schedule| ==> schedule[i] < |s.pulled|
    ensures |s'.pulled| == |s.pulled| && s'.offset == s.offset + |schedule|
  {
    if schedule == [] then s
    else Pull(n, PullAll(n, s, schedule[..|schedule| - 1]), schedule[|schedule| - 1])
  }

  /** How often a reader has pulled chunk `i`. */
  function Times(i: nat): seq<nat> -> nat {
    (pulled: seq<nat>) => multiset(pulled)[i]
  }

  /** Whatever the order of the pulls, each chunk goes to one reader, once, as soon as there were enough of them. */
  lemma {:induction false} EachChunkOnce(n: nat, s: Reading, schedule: seq<nat>, i: nat)
    requires s.offset == 0 && forall r :: 0 <= r < |s.pulled| ==> s.pulled[r] == []
    requires forall k :: 0 <= k < |schedule| ==> schedule[k] < |s.pulled|
    ensures Total(PullAll(n, s, schedule).pulled, Times(i)) == if i < n && i < |schedule| then 1 else 0
  {
    if schedule == [] {
      TotalZero(s.pulled, Times(i));
    } else {
      var last := |schedule| - 1;
      var before := PullAll(n, s, schedule[..last]);
      EachChunkOnce(n, s, schedule[..last], i);
      TotalUpdate(before.pulled, Times(i), schedule[last], before.pulled[schedule[last]] + [before.offset]);
    }
  }
}
