/**
 * Which addition the merger uses for which granule of the aggregate state. It looks at the type of the aggregated column first,
 * and at the kind of the granule only if no primitive fits the type. So a counter over a column of four bytes is merged with
 * an addition of four bytes, although its state has eight.
 */
module GranuleMerge {
  import opened Options
  import opened Hashing
  import opened SharedTable
  import opened GroupBy
  import opened AggregationMerger
  import opened ParallelAggregation

  const WORD := 0x1_0000_0000

  type Word = w: int | 0 <= w < WORD

  /** The aggregate state of a group as it lies in memory, in words of four bytes, the low word of a number first. */
  type Slot = seq<Word>

  /** The column types that the merger knows, and all others by the size of their sums. */
  datatype ColumnType = UI4 | UI8 | I4 | I8 | F4 | F8 | Other(words: nat)

  datatype Granule = SumOf(column: ColumnType) | CountOf(column: ColumnType)

  datatype Width = Four | Eight

  function Words(width: Width): (words: nat)
    ensures 1 <= words <= 2
  {
    if width.Four? then 1 else 2
  }

  /** How many numbers there are of so many bytes. */
  function Capacity(width: Width): nat {
    if width.Four? then WORD else WORD * WORD
  }

  /** The merge primitives: additions of integers, whose signs make no difference to the bits, and of floating point numbers. */
  datatype Primitive = Integers(width: Width) | Floats(width: Width)

  function StateWords(g: Granule): nat {
    if g.CountOf? then 2
    else
      match g.column
      case UI4 => 1
      case I4 => 1
      case F4 => 1
      case UI8 => 2
      case I8 => 2
      case F8 => 2
      case Other(words) => words
  }

  function Dispatch(g: Granule): (prim: Option<Primitive>)
    ensures prim.Some? ==> Words(prim.value.width) <= StateWords(g) <= 2
  {
    match g.column
    case UI4 => Some(Integers(Four))
    case UI8 => Some(Integers(Eight))
    case I4 => Some(Integers(Four))
    case I8 => Some(Integers(Eight))
    case F4 => Some(Floats(Four))
    case F8 => Some(Floats(Eight))
    case Other(_) => if g.CountOf? then Some(Integers(Eight)) else None
  }

  predicate Supported(granules: seq<Granule>) {
    forall i :: 0 <= i < |granules| ==> Dispatch(granules[i]).Some?
  }

  // ---------------------------------------------------------------------------------------------
  // Numbers in memory
  // ---------------------------------------------------------------------------------------------

  function Number(ws: seq<Word>): nat
    requires 1 <= |ws| <= 2
  {
    if |ws| == 1 then ws[0] else ws[0] + WORD * ws[1]
  }

  /** The addition of the hardware: the last carry is lost. */
  function AddWords(a: seq<Word>, b: seq<Word>): (sum: seq<Word>)
    requires 1 <= |a| == |b| <= 2
    ensures |sum| == |a|
  {
    var low: nat := a[0] as int + b[0] as int;
    if |a| == 1 then [low % WORD] else [low % WORD, (a[1] + b[1] + low / WORD) % WORD]
  }

  lemma AddIsModular(a: seq<Word>, b: seq<Word>)
    requires 1 <= |a| == |b| <= 2
    ensures Number(AddWords(a, b)) == (Number(a) + Number(b)) % if |a| == 1 then WORD else WORD * WORD
  {
    if |a| == 2 {
      AddTwo(a[0] as int + b[0] as int, a[1] as int + b[1] as int);
    }
  }

  lemma AddTwo(low: nat, high: nat)
    ensures low % WORD + WORD * ((high + low / WORD) % WORD) == (low + WORD * high) % (WORD * WORD)
  {
    var carry := high + low / WORD;
    assert low + WORD * high == low % WORD + WORD * (carry % WORD) + (WORD * WORD) * (carry / WORD);
  }

  // ---------------------------------------------------------------------------------------------
  // Granules in a slot
  // ---------------------------------------------------------------------------------------------

  /** What floating point addition makes of two bit patterns is a parameter. */
  type FloatAdd = (seq<Word>, seq<Word>) -> seq<Word>

  function AddBits(fp: FloatAdd, prim: Primitive, a: seq<Word>, b: seq<Word>): (sum: seq<Word>)
    requires 1 <= |a| == |b| <= 2
    ensures |sum| == |a|
  {
    match prim
    case Integers(_) => AddWords(a, b)
    case Floats(_) => var sum := fp(a, b); if |sum| == |a| then sum else a
  }

  /** Overwrites what lies at an offset. */
  function Patch(slot: Slot, offset: nat, bits: seq<Word>): (patched: Slot)
    requires offset + |bits| <= |slot|
    ensures |patched| == |slot|
  {
    slot[..offset] + bits + slot[offset + |bits|..]
  }

  /** One step of a merge primitive at an offset: `*dest += *src`. */
  function AddAt(fp: FloatAdd, prim: Primitive, offset: nat, dest: Slot, src: Slot): (slot: Slot)
    ensures |slot| == |dest|
  {
    var end := offset + Words(prim.width);
    if end <= |dest| && end <= |src| then Patch(dest, offset, AddBits(fp, prim, dest[offset..end], src[offset..end])) else dest
  }

  /** Where granule `i` starts: the states lie next to each other. */
  function OffsetOf(granules: seq<Granule>, start: nat, i: nat): (offset: nat)
    requires i <= |granules|
    ensures offset >= start
  {
    if i == 0 then start else OffsetOf(granules, start, i - 1) + StateWords(granules[i - 1])
  }

  /** The merge loops for the first `n` granules, each with its primitive and its offset. */
  function Adders(fp: FloatAdd, granules: seq<Granule>, start: nat, n: nat): (adds: seq<(Slot, Slot) -> Slot>)
    requires Supported(granules) && n <= |granules|
    ensures |adds| == n
  {
    if n == 0 then []
    else Adders(fp, granules, start, n - 1) + [Adder(fp, Dispatch(granules[n - 1]).value, OffsetOf(granules, start, n - 1))]
  }

  function Adder(fp: FloatAdd, prim: Primitive, offset: nat): (Slot, Slot) -> Slot {
    (dest: Slot, src: Slot) => AddAt(fp, prim, offset, dest, src)
  }

  function StateOf(granules: seq<Granule>, start: nat, i: nat, slot: Slot): (state: seq<Word>)
    requires i < |granules| && OffsetOf(granules, start, i + 1) <= |slot|
    ensures |state| == StateWords(granules[i])
  {
    slot[OffsetOf(granules, start, i)..OffsetOf(granules, start, i + 1)]
  }

  lemma {:induction false} OffsetsGrow(granules: seq<Granule>, start: nat, i: nat, j: nat)
    requires i <= j <= |granules|
    ensures OffsetOf(granules, start, i) <= OffsetOf(granules, start, j)
  {
    if i < j {
      OffsetsGrow(granules, start, i, j - 1);
    }
  }

  /** What merging does to the state of one granule: the primitive may cover a part of it only. */
  function MergedState(fp: FloatAdd, g: Granule, dest: seq<Word>, src: seq<Word>): seq<Word>
    requires Dispatch(g).Some? && |dest| == |src| == StateWords(g)
  {
    var w := Words(Dispatch(g).value.width);
    AddBits(fp, Dispatch(g).value, dest[..w], src[..w]) + dest[w..]
  }

  lemma PatchParts(slot: Slot, offset: nat, bits: seq<Word>, end: nat)
    requires offset + |bits| <= end <= |slot|
    ensures Patch(slot, offset, bits)[..offset] == slot[..offset] && Patch(slot, offset, bits)[end..] == slot[end..]
    ensures Patch(slot, offset, bits)[offset..end] == bits + slot[offset..end][|bits|..]
  {
    var rest := slot[offset..end][|bits|..];
    assert slot[offset + |bits|..] == rest + slot[end..];
    ThreeParts(slot[..offset], bits + rest, slot[end..]);
    assert Patch(slot, offset, bits) == slot[..offset] + (bits + rest) + slot[end..];
  }

  lemma ThreeParts(a: Slot, b: Slot, c: Slot)
    ensures (a + b + c)[..|a|] == a && (a + b + c)[|a|..|a| + |b|] == b && (a + b + c)[|a| + |b|..] == c
  {
  }

  lemma AddAtStates(fp: FloatAdd, prim: Primitive, offset: nat, end: nat, dest: Slot, src: Slot)
    requires offset + Words(prim.width) <= end <= |dest| && end <= |src|
    ensures AddAt(fp, prim, offset, dest, src)[..offset] == dest[..offset]
    ensures AddAt(fp, prim, offset, dest, src)[end..] == dest[end..]
    ensures AddAt(fp, prim, offset, dest, src)[offset..end]
         == AddBits(fp, prim, dest[offset..end][..Words(prim.width)], src[offset..end][..Words(prim.width)])
            + dest[offset..end][Words(prim.width)..]
  {
    var w := Words(prim.width);
    assert dest[offset..end][..w] == dest[offset..offset + w] && src[offset..end][..w] == src[offset..offset + w];
    PatchParts(dest, offset, AddBits(fp, prim, dest[offset..offset + w], src[offset..offset + w]), end);
  }

  /** The states of the first granules are merged, and nothing behind them. */
  ghost predicate FirstMerged(fp: FloatAdd, granules: seq<Granule>, start: nat, n: nat, dest: Slot, src: Slot, slot: Slot)
    requires Supported(granules) && n <= |granules|
  {
    var end := OffsetOf(granules, start, n);
    && end <= |dest| == |slot| && end <= |src| && slot[..start] == dest[..start] && slot[end..] == dest[end..]
    && forall i :: 0 <= i < n ==> IsMerged(fp, granules, start, i, dest, src, slot)
  }

  lemma NextIsMerged(fp: FloatAdd, granules: seq<Granule>, start: nat, n: nat, dest: Slot, src: Slot, before: Slot)
    requires Supported(granules) && n < |granules| && FirstMerged(fp, granules, start, n, dest, src, before)
    requires OffsetOf(granules, start, n + 1) <= |dest| && OffsetOf(granules, start, n + 1) <= |src|
    ensures FirstMerged(fp, granules, start, n + 1, dest, src,
                        AddAt(fp, Dispatch(granules[n]).value, OffsetOf(granules, start, n), before, src))
  {
    var prim, offset, end := Dispatch(granules[n]).value, OffsetOf(granules, start, n), OffsetOf(granules, start, n + 1);
    var slot := AddAt(fp, prim, offset, before, src);
    AddAtStates(fp, prim, offset, end, before, src);
    SlicesOfSuffix(before, dest, offset, end);
    SlicesOfPrefix(slot, before, 0, start, offset);
    forall i | 0 <= i < n ensures IsMerged(fp, granules, start, i, dest, src, slot) {
      assert IsMerged(fp, granules, start, i, dest, src, before);
      OffsetsGrow(granules, start, i + 1, n);
      SlicesOfPrefix(slot, before, OffsetOf(granules, start, i), OffsetOf(granules, start, i + 1), offset);
    }
  }

  lemma SlicesOfSuffix(a: Slot, b: Slot, n: nat, to: nat)
    requires n <= to <= |a| == |b| && a[n..] == b[n..]
    ensures a[n..to] == b[n..to] && a[to..] == b[to..]
  {
    assert a[n..to] == a[n..][..to - n] && b[n..to] == b[n..][..to - n];
    assert a[to..] == a[n..][to - n..] && b[to..] == b[n..][to - n..];
  }

  /**
   * Merging a whole payload merges the state of every granule, each with what lies at its place, and leaves everything around
   * the states alone.
   */
  lemma {:induction false} StatesAreMerged(fp: FloatAdd, granules: seq<Granule>, start: nat, n: nat, dest: Slot, src: Slot)
    requires Supported(granules) && n <= |granules|
    requires OffsetOf(granules, start, n) <= |dest| && OffsetOf(granules, start, n) <= |src|
    ensures FirstMerged(fp, granules, start, n, dest, src, ApplyAll(Adders(fp, granules, start, n), dest, src))
  {
    if n != 0 {
      StatesAreMerged(fp, granules, start, n - 1, dest, src);
      assert Adders(fp, granules, start, n)[..n - 1] == Adders(fp, granules, start, n - 1);
      NextIsMerged(fp, granules, start, n - 1, dest, src, ApplyAll(Adders(fp, granules, start, n - 1), dest, src));
    }
  }

  lemma SlicesOfPrefix(a: Slot, b: Slot, from: nat, to: nat, n: nat)
    requires from <= to <= n <= |a| && n <= |b| && a[..n] == b[..n]
    ensures a[from..to] == b[from..to]
  {
    assert a[from..to] == a[..n][from..to] && b[from..to] == b[..n][from..to];
  }

  ghost predicate IsMerged(fp: FloatAdd, granules: seq<Granule>, start: nat, i: nat, dest: Slot, src: Slot, slot: Slot)
    requires Supported(granules) && i < |granules|
  {
    var end := OffsetOf(granules, start, i + 1);
    && end <= |dest| && end <= |src| && end <= |slot|
    && StateOf(granules, start, i, slot)
       == MergedState(fp, granules[i], StateOf(granules, start, i, dest), StateOf(granules, start, i, src))
  }

  /** All granules have a primitive but sums over other column types. */
  lemma SupportedIff(granules: seq<Granule>)
    ensures Supported(granules) <==> forall i :: 0 <= i < |granules| ==> granules[i].CountOf? || !granules[i].column.Other?
  {
  }

  /**
   * What the state of a granule has to become, case by case: integers of four bytes are added modulo 2^32, those of eight bytes
   * and counters over other columns modulo 2^64, and floating point numbers by their own addition. Of a counter over a column of
   * four bytes only the low word takes part.
   */
  ghost predicate MergedByType(fp: FloatAdd, g: Granule, dest: seq<Word>, src: seq<Word>, merged: seq<Word>)
    requires |dest| == |src| == |merged| == StateWords(g)
  {
    if g.column.UI4? || g.column.I4? then
      merged[0] == (dest[0] as int + src[0] as int) % 0x1_0000_0000 && merged[1..] == dest[1..]
    else if g.column.F4? then
      |fp([dest[0]], [src[0]])| == 1 ==> merged[0] == fp([dest[0]], [src[0]])[0] && merged[1..] == dest[1..]
    else if g.column.F8? then
      |fp(dest, src)| == 2 ==> merged == fp(dest, src)
    else
      |merged| == 2 ==>
        merged[0] as int + 0x1_0000_0000 * merged[1] as int
        == (dest[0] as int + 0x1_0000_0000 * dest[1] as int + src[0] as int + 0x1_0000_0000 * src[1] as int)
           % 0x1_0000_0000_0000_0000
  }

  lemma StatesMean(fp: FloatAdd, g: Granule, dest: seq<Word>, src: seq<Word>)
    requires Dispatch(g).Some? && |dest| == |src| == StateWords(g)
    ensures |MergedState(fp, g, dest, src)| == StateWords(g)
    ensures MergedByType(fp, g, dest, src, MergedState(fp, g, dest, src))
  {
    if Dispatch(g).value.width.Four? {
      assert dest[..1] == [dest[0]] && src[..1] == [src[0]];
    } else {
      assert dest[..2] == dest && src[..2] == src && dest[2..] == [];
      AddIsModular(dest, src);
    }
  }

  /**
   * Main theorem: merging a whole payload does to the state of every granule what its kind and its column type ask for, and
   * the states lie next to each other: counters and everything of eight bytes in two words, the other sums in one.
   */
  lemma GranulesAreMerged(fp: FloatAdd, granules: seq<Granule>, start: nat, i: nat, dest: Slot, src: Slot)
    requires Supported(granules) && i < |granules|
    requires OffsetOf(granules, start, |granules|) <= |dest| && OffsetOf(granules, start, |granules|) <= |src|
    ensures var o, next := OffsetOf(granules, start, i), OffsetOf(granules, start, i + 1);
      var slot := Combined(Adders(fp, granules, start, |granules|))(dest, src);
      && |slot| == |dest| && next <= |dest| && next <= |src|
      && next - o == StateWords(granules[i])
      && next - o == (if granules[i].SumOf? && (granules[i].column.UI4? || granules[i].column.I4? || granules[i].column.F4?)
                      then 1 else 2)
      && MergedByType(fp, granules[i], dest[o..next], src[o..next], slot[o..next])
  {
    RowIsMerged(fp, granules, start, i, dest, src);
    StateFits(granules, start, i, dest);
    StateFits(granules, start, i, src);
    StatesMean(fp, granules[i], StateOf(granules, start, i, dest), StateOf(granules, start, i, src));
  }

  // ---------------------------------------------------------------------------------------------
  // What a group holds after all merges
  // ---------------------------------------------------------------------------------------------

  predicate LongEnough(granules: seq<Granule>, start: nat, rows: seq<Row<Slot>>) {
    forall j :: 0 <= j < |rows| ==> OffsetOf(granules, start, |granules|) <= |rows[j].payload|
  }

  lemma StateFits(granules: seq<Granule>, start: nat, i: nat, slot: Slot)
    requires i < |granules| && OffsetOf(granules, start, |granules|) <= |slot|
    ensures OffsetOf(granules, start, i + 1) <= |slot|
  {
    OffsetsGrow(granules, start, i + 1, |granules|);
  }

  /** What the partial states of a granule add up to as whole numbers. */
  ghost function Total(granules: seq<Granule>, start: nat, i: nat, rows: seq<Row<Slot>>, k: Key): nat
    requires i < |granules| && Dispatch(granules[i]).Some? && LongEnough(granules, start, rows)
  {
    if rows == [] then 0
    else
      var last := rows[|rows| - 1];
      StateFits(granules, start, i, last.payload);
      Total(granules, start, i, rows[..|rows| - 1], k)
      + if last.key == k then Number(StateOf(granules, start, i, last.payload)) else 0
  }

  /** In the words that the primitive covers there is the total, cut to what fits, and a word that it leaves out is zero. */
  ghost predicate Carries(g: Granule, state: seq<Word>, total: nat)
    requires Dispatch(g).Some? && |state| == StateWords(g)
  {
    match Dispatch(g).value.width
    case Four => state[0] == total % WORD && (|state| == 2 ==> state[1] == 0)
    case Eight => Number(state) == total % (WORD * WORD)
  }

  lemma CarriesNumber(g: Granule, state: seq<Word>, total: nat)
    requires Dispatch(g).Some? && |state| == StateWords(g) && Carries(g, state, total)
    ensures Number(state) == total <==> total < Capacity(Dispatch(g).value.width)
  {
  }

  /** One integer addition. */
  lemma IntegersMerge(fp: FloatAdd, g: Granule, dest: seq<Word>, src: seq<Word>, total: nat)
    requires Dispatch(g).Some? && Dispatch(g).value.Integers? && |dest| == |src| == StateWords(g) && Carries(g, dest, total)
    ensures Carries(g, MergedState(fp, g, dest, src), total + Number(src))
  {
    if Dispatch(g).value.width.Four? {
      FourMerge(dest, src, total);
    } else {
      assert dest[..2] == dest && src[..2] == src && AddWords(dest, src) + dest[2..] == AddWords(dest, src);
      AddIsModular(dest, src);
      ModAdd(total, Number(src));
    }
  }

  lemma FourMerge(dest: seq<Word>, src: seq<Word>, total: nat)
    requires 1 <= |dest| == |src| <= 2 && dest[0] == total % WORD
    ensures var merged := AddWords(dest[..1], src[..1]) + dest[1..];
      merged[0] == (total + Number(src)) % WORD && (|dest| == 2 ==> merged[1] == dest[1])
  {
    LowModAdd(total, src[0], if |src| == 2 then src[1] else 0);
  }

  lemma LowModAdd(x: nat, low: nat, high: nat)
    ensures (x % WORD + low) % WORD == (x + low + WORD * high) % WORD
  {
  }

  lemma ModAdd(x: nat, y: nat)
    ensures (x % (WORD * WORD) + y) % (WORD * WORD) == (x + y) % (WORD * WORD)
  {
  }

  ghost predicate SlotCarries(granules: seq<Granule>, start: nat, i: nat, slot: Slot, total: nat)
    requires Supported(granules) && i < |granules|
  {
    OffsetOf(granules, start, i + 1) <= |slot| && Carries(granules[i], StateOf(granules, start, i, slot), total)
  }

  lemma GroupStep(fp: FloatAdd, granules: seq<Granule>, start: nat, i: nat, dest: Slot, src: Slot, total: nat, slot: Slot)
    requires Supported(granules) && i < |granules| && Dispatch(granules[i]).value.Integers?
    requires IsMerged(fp, granules, start, i, dest, src, slot) && SlotCarries(granules, start, i, dest, total)
    ensures SlotCarries(granules, start, i, slot, total + Number(StateOf(granules, start, i, src)))
  {
    IntegersMerge(fp, granules[i], StateOf(granules, start, i, dest), StateOf(granules, start, i, src), total);
  }

  lemma NextRow<V>(add: (V, V) -> V, zero: V, rows: seq<Row<V>>, k: Key)
    requires rows != []
    ensures var last, before := rows[|rows| - 1], SumFrom(add, zero, rows[..|rows| - 1], k);
      SumFrom(add, zero, rows, k) == if last.key == k then add(before, last.payload) else before
  {
  }

  lemma RowIsMerged(fp: FloatAdd, granules: seq<Granule>, start: nat, i: nat, dest: Slot, src: Slot)
    requires Supported(granules) && i < |granules|
    requires OffsetOf(granules, start, |granules|) <= |dest| && OffsetOf(granules, start, |granules|) <= |src|
    ensures var slot := Combined(Adders(fp, granules, start, |granules|))(dest, src);
      |slot| == |dest| && IsMerged(fp, granules, start, i, dest, src, slot)
  {
    StatesAreMerged(fp, granules, start, |granules|, dest, src);
  }

  /** In a group the states of a granule add up, cut to what its primitive covers. */
  lemma {:induction false} GroupCarries(fp: FloatAdd, granules: seq<Granule>, start: nat, i: nat, zero: Slot,
                                        rows: seq<Row<Slot>>, k: Key)
    requires Supported(granules) && i < |granules| && Dispatch(granules[i]).value.Integers?
    requires LongEnough(granules, start, rows) && OffsetOf(granules, start, |granules|) <= |zero|
    requires SlotCarries(granules, start, i, zero, 0)
    ensures var sum := SumFrom(Combined(Adders(fp, granules, start, |granules|)), zero, rows, k);
      |sum| == |zero| && SlotCarries(granules, start, i, sum, Total(granules, start, i, rows, k))
  {
    if rows != [] {
      var init, last, add := rows[..|rows| - 1], rows[|rows| - 1], Combined(Adders(fp, granules, start, |granules|));
      GroupCarries(fp, granules, start, i, zero, init, k);
      NextRow(add, zero, rows, k);
      if last.key == k {
        var before := SumFrom(add, zero, init, k);
        RowIsMerged(fp, granules, start, i, before, last.payload);
        GroupStep(fp, granules, start, i, before, last.payload, Total(granules, start, i, init, k), add(before, last.payload));
      }
    }
  }

  /**
   * Main theorem: a merged integer state is the sum of the partial states exactly if that sum fits into what the primitive
   * covers.
   */
  lemma MergedExactlyIff(fp: FloatAdd, granules: seq<Granule>, start: nat, i: nat, zero: Slot, rows: seq<Row<Slot>>, k: Key)
    requires Supported(granules) && i < |granules| && Dispatch(granules[i]).value.Integers?
    requires LongEnough(granules, start, rows) && OffsetOf(granules, start, |granules|) <= |zero|
    requires OffsetOf(granules, start, i + 1) <= |zero| && Number(StateOf(granules, start, i, zero)) == 0
    ensures var sum := SumFrom(Combined(Adders(fp, granules, start, |granules|)), zero, rows, k);
      && |sum| == |zero|
      && (Number(StateOf(granules, start, i, sum)) == Total(granules, start, i, rows, k)
          <==> Total(granules, start, i, rows, k) < Capacity(Dispatch(granules[i]).value.width))
  {
    GroupCarries(fp, granules, start, i, zero, rows, k);
    var sum := SumFrom(Combined(Adders(fp, granules, start, |granules|)), zero, rows, k);
    CarriesNumber(granules[i], StateOf(granules, start, i, sum), Total(granules, start, i, rows, k));
  }

  /**
   * The same for a worker: after all of its merges, with room in each of them, the integer state of a group is the sum over all
   * rows that it merged exactly if that sum fits into what the primitive covers.
   */
  lemma WorkerExactlyIff(fp: FloatAdd, granules: seq<Granule>, start: nat, i: nat, zero: Slot, parts: seq<seq<Row<Slot>>>,
                         limit: nat, k: Key)
    requires Supported(granules) && i < |granules| && Dispatch(granules[i]).value.Integers?
    requires LongEnough(granules, start, Joined(parts, |parts|)) && OffsetOf(granules, start, |granules|) <= |zero|
    requires OffsetOf(granules, start, i + 1) <= |zero| && Number(StateOf(granules, start, i, zero)) == 0
    requires 0 < limit && Room(map[], zero, Combined(Adders(fp, granules, start, |granules|)), parts, |parts|, limit)
    requires HasKey(Joined(parts, |parts|), k)
    ensures var add := Combined(Adders(fp, granules, start, |granules|));
      var groups, rows := MergedGroups(map[], zero, add, parts, |parts|, limit), Joined(parts, |parts|);
      var total := Total(granules, start, i, rows, k);
      && k in groups && |groups[k]| == |zero|
      && (Number(StateOf(granules, start, i, groups[k])) == total <==> total < Capacity(Dispatch(granules[i]).value.width))
  {
    var add, rows := Combined(Adders(fp, granules, start, |granules|)), Joined(parts, |parts|);
    MergedExact(map[], zero, add, parts, |parts|, limit);
    FoldIsGroupSum(zero, add, rows, k);
    MergedExactlyIff(fp, granules, start, i, zero, rows, k);
  }

  /** In numbers: a sum of integers, read without signs, is right exactly as long as it fits into the bytes of its column. */
  lemma SumIsRightIff(fp: FloatAdd, granules: seq<Granule>, start: nat, i: nat, zero: Slot, rows: seq<Row<Slot>>, k: Key)
    requires Supported(granules) && i < |granules| && granules[i].SumOf?
    requires granules[i].column.UI4? || granules[i].column.I4? || granules[i].column.UI8? || granules[i].column.I8?
    requires LongEnough(granules, start, rows) && OffsetOf(granules, start, |granules|) <= |zero|
    requires OffsetOf(granules, start, i + 1) <= |zero| && Number(StateOf(granules, start, i, zero)) == 0
    ensures var sum, column := SumFrom(Combined(Adders(fp, granules, start, |granules|)), zero, rows, k), granules[i].column;
      && |sum| == |zero|
      && (Number(StateOf(granules, start, i, sum)) == Total(granules, start, i, rows, k)
          <==> Total(granules, start, i, rows, k)
               < if column.UI4? || column.I4? then 0x1_0000_0000 else 0x1_0000_0000_0000_0000)
  {
    MergedExactlyIff(fp, granules, start, i, zero, rows, k);
  }

  /** The number that the bits stand for if the type has a sign. */
  function Signed(ws: seq<Word>): int
    requires 1 <= |ws| <= 2
  {
    var n := Number(ws);
    if |ws| == 1 then if n < 0x8000_0000 then n else n - 0x1_0000_0000
    else if n < 0x8000_0000_0000_0000 then n else n - 0x1_0000_0000_0000_0000
  }

  /** What the partial states add up to with their signs. */
  ghost function SignedTotal(granules: seq<Granule>, start: nat, i: nat, rows: seq<Row<Slot>>, k: Key): int
    requires i < |granules| && Dispatch(granules[i]).Some? && LongEnough(granules, start, rows)
  {
    if rows == [] then 0
    else
      var last := rows[|rows| - 1];
      StateFits(granules, start, i, last.payload);
      SignedTotal(granules, start, i, rows[..|rows| - 1], k)
      + if last.key == k then Signed(StateOf(granules, start, i, last.payload)) else 0
  }

  /** With and without signs the totals have the same low bits. */
  lemma {:induction false} TotalsAgree(granules: seq<Granule>, start: nat, i: nat, rows: seq<Row<Slot>>, k: Key) returns (q: int)
    requires i < |granules| && Dispatch(granules[i]).Some? && LongEnough(granules, start, rows)
    ensures Total(granules, start, i, rows, k)
         == SignedTotal(granules, start, i, rows, k)
            + q * if StateWords(granules[i]) == 1 then 0x1_0000_0000 else 0x1_0000_0000_0000_0000
  {
    if rows == [] {
      q := 0;
    } else {
      var last := rows[|rows| - 1];
      q := TotalsAgree(granules, start, i, rows[..|rows| - 1], k);
      StateFits(granules, start, i, last.payload);
      if last.key == k && Signed(StateOf(granules, start, i, last.payload)) < 0 {
        q := q + 1;
      }
    }
  }

  lemma SignedIff(n: nat, total: int, q: int, half: int)
    requires half == 0x8000_0000 || half == 0x8000_0000_0000_0000
    requires n == (total + q * (2 * half)) % (2 * half)
    ensures (if n < half then n else n - 2 * half) == total <==> -half <= total < half
  {
    if half == 0x8000_0000 {
      assert n == total % 0x1_0000_0000;
    } else {
      assert n == total % 0x1_0000_0000_0000_0000;
    }
  }

  /** And a sum of signed integers is right exactly as long as the signed type holds it. */
  lemma SignedSumIsRightIff(fp: FloatAdd, granules: seq<Granule>, start: nat, i: nat, zero: Slot, rows: seq<Row<Slot>>, k: Key)
    requires Supported(granules) && i < |granules| && granules[i].SumOf? && (granules[i].column.I4? || granules[i].column.I8?)
    requires LongEnough(granules, start, rows) && OffsetOf(granules, start, |granules|) <= |zero|
    requires OffsetOf(granules, start, i + 1) <= |zero| && Number(StateOf(granules, start, i, zero)) == 0
    ensures var sum := SumFrom(Combined(Adders(fp, granules, start, |granules|)), zero, rows, k);
      var half := if granules[i].column.I4? then 0x8000_0000 else 0x8000_0000_0000_0000;
      var total := SignedTotal(granules, start, i, rows, k);
      && |sum| == |zero|
      && (Signed(StateOf(granules, start, i, sum)) == total <==> -half <= total < half)
  {
    GroupCarries(fp, granules, start, i, zero, rows, k);
    var state := StateOf(granules, start, i, SumFrom(Combined(Adders(fp, granules, start, |granules|)), zero, rows, k));
    var q := TotalsAgree(granules, start, i, rows, k);
    SignedIff(Number(state), SignedTotal(granules, start, i, rows, k), q,
              if granules[i].column.I4? then 0x8000_0000 else 0x8000_0000_0000_0000);
  }

  /** A counter has eight bytes. Over a column of integers of four bytes, it is merged right only as long as it fits into four. */
  lemma CountIsRightIff(fp: FloatAdd, granules: seq<Granule>, start: nat, i: nat, zero: Slot, rows: seq<Row<Slot>>, k: Key)
    requires Supported(granules) && i < |granules| && granules[i].CountOf? && !granules[i].column.F4? && !granules[i].column.F8?
    requires LongEnough(granules, start, rows) && OffsetOf(granules, start, |granules|) <= |zero|
    requires OffsetOf(granules, start, i + 1) <= |zero| && Number(StateOf(granules, start, i, zero)) == 0
    ensures var sum, column := SumFrom(Combined(Adders(fp, granules, start, |granules|)), zero, rows, k), granules[i].column;
      && |sum| == |zero|
      && (Number(StateOf(granules, start, i, sum)) == Total(granules, start, i, rows, k)
          <==> Total(granules, start, i, rows, k)
               < if column.UI4? || column.I4? then 0x1_0000_0000 else 0x1_0000_0000_0000_0000)
  {
    MergedExactlyIff(fp, granules, start, i, zero, rows, k);
  }

  /** Two threads with 2^31 rows each of a group: the merged counter of an `I4` column is zero. */
  lemma CountVanishes(fp: FloatAdd, k: Key)
    ensures Supported([CountOf(I4)])
    ensures SumFrom(Combined(Adders(fp, [CountOf(I4)], 0, 1)), [0, 0], [Row(k, [0x8000_0000, 0]), Row(k, [0x8000_0000, 0])], k)
         == [0, 0]
  {
    var half: Slot, nothing: Slot := [0x8000_0000, 0], [0, 0];
    var adds := Adders(fp, [CountOf(I4)], 0, 1);
    assert adds == [Adder(fp, Integers(Four), 0)];
    HalfTwice(fp, half, nothing);
    OneAdder(adds[0], nothing, half);
    OneAdder(adds[0], half, half);
    TwoRows(Combined(adds), nothing, half, k);
  }

  lemma OneAdder(add: (Slot, Slot) -> Slot, dest: Slot, src: Slot)
    ensures ApplyAll([add], dest, src) == add(dest, src)
  {
    assert [add][..0] == [];
  }

  lemma TwoRows(add: (Slot, Slot) -> Slot, zero: Slot, half: Slot, k: Key)
    ensures SumFrom(add, zero, [Row(k, half), Row(k, half)], k) == add(add(zero, half), half)
  {
    var none: seq<Row<Slot>>, one: seq<Row<Slot>>, two: seq<Row<Slot>> := [], [Row(k, half)], [Row(k, half), Row(k, half)];
    assert two[..1] == one && one[..0] == none;
    assert SumFrom(add, zero, one, k) == add(zero, half);
  }

  lemma HalfTwice(fp: FloatAdd, half: Slot, nothing: Slot)
    requires half == [0x8000_0000, 0] && nothing == [0, 0]
    ensures AddAt(fp, Integers(Four), 0, nothing, half) == half && AddAt(fp, Integers(Four), 0, half, half) == nothing
  {
    assert half[0..1] == [0x8000_0000] && half[1..] == [0] && nothing[0..1] == [0] && nothing[1..] == [0];
    assert AddWords([0], [0x8000_0000]) == [0x8000_0000] && AddWords([0x8000_0000], [0x8000_0000]) == [0];
  }

  // ---------------------------------------------------------------------------------------------
  // The merge of one table
  // ---------------------------------------------------------------------------------------------

  /** The loop over the granules ends early, with an exception, at a sum whose type no primitive fits. */
  function SupportedPrefix(granules: seq<Granule>): (n: nat)
    ensures n <= |granules| && Supported(granules[..n]) && (n < |granules| ==> granules[n].SumOf? && granules[n].column.Other?)
  {
    if granules == [] || Dispatch(granules[0]).None? then 0
    else
      var n := SupportedPrefix(granules[1..]);
      assert forall i :: 0 <= i < n ==> granules[1..][..n][i] == granules[i + 1];
      n + 1
  }

  /** Merges one local table, granule by granule; `ok` is false if the merger throws. */
  method MergeTyped(src: Frozen<Slot>, target: HashTable<Slot>, id: nat, total: nat, granules: seq<Granule>, start: nat,
                    fp: FloatAdd) returns (ok: bool)
    requires target.Valid() && total > 0 && src.WellFormed() && DistinctKeys(src.Share(id, total))
    modifies target, target.tags, target.data
    ensures target.Valid()
    ensures ok <==> forall i :: 0 <= i < |granules| ==> granules[i].CountOf? || !granules[i].column.Other?
    ensures var m, zero, part, limit := old(target.Contents()), target.zero.payload, src.Share(id, total), old(target.maxFill);
      var n := SupportedPrefix(granules);
      target.Contents() == MergeOutcome(m, zero, Combined(Adders(fp, granules[..n], start, n)), part, limit)
  {
    var n := SupportedPrefix(granules);
    var adds := Adders(fp, granules[..n], start, n);
    MergeSingleTable(src, target, id, total, adds, Combined(adds));
    ok := n == |granules|;
    assert granules[..|granules|] == granules;
    SupportedIff(granules[..n]);
  }
}
