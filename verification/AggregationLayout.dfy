/**
 * The layout of aggregate state behind a packed key: which granules of state a set of aggregate functions shares, where each
 * of them lies, and that everybody who reads, updates or merges a granule means the same bytes.
 */
module AggregationLayout {
  import opened Products

  /** A piece of aggregate state: its size in bytes, the column it is computed over, and what is computed. */
  datatype Granule = Granule(size: nat, column: nat, id: nat)

  /** The order of the set of granules: largest first. */
  predicate Above(a: Granule, b: Granule) {
    a.size > b.size || (a.size == b.size && (a.column > b.column || (a.column == b.column && a.id > b.id)))
  }

  ghost predicate Sorted(gs: seq<Granule>) {
    forall i, j :: 0 <= i < j < |gs| ==> Above(gs[i], gs[j])
  }

  lemma SortedIsInjective(gs: seq<Granule>, i: nat, j: nat)
    requires Sorted(gs) && i < |gs| && j < |gs| && gs[i] == gs[j]
    ensures i == j
  {
  }

  /** Bytes taken by the first `n` granules. */
  function Before(gs: seq<Granule>, n: nat): nat
    requires n <= |gs|
  {
    if n == 0 then 0 else Before(gs, n - 1) + gs[n - 1].size
  }

  lemma {:induction false} BeforeGrows(gs: seq<Granule>, i: nat, n: nat)
    requires i < n <= |gs|
    ensures Before(gs, i) + gs[i].size <= Before(gs, n)
    decreases n
  {
    if i < n - 1 {
      BeforeGrows(gs, i, n - 1);
    }
  }

  // ---------------------------------------------------------------------------------------------
  // Planning
  // ---------------------------------------------------------------------------------------------

  method InsertGranule(gs: seq<Granule>, g: Granule) returns (r: seq<Granule>)
    requires Sorted(gs)
    ensures Sorted(r) && forall x :: x in r <==> x in gs || x == g
  {
    var i := 0;
    while i < |gs| && Above(gs[i], g)
      invariant 0 <= i <= |gs| && forall j :: 0 <= j < i ==> Above(gs[j], g)
    {
      i := i + 1;
    }
    if i < |gs| && gs[i] == g {
      return gs;
    }
    r := gs[..i] + [g] + gs[i..];
    StaysSorted(gs, g, i);
    assert gs == gs[..i] + gs[i..];
  }

  lemma StaysSorted(gs: seq<Granule>, g: Granule, i: nat)
    requires Sorted(gs) && i <= |gs| && (forall j :: 0 <= j < i ==> Above(gs[j], g)) && (i < |gs| ==> Above(g, gs[i]))
    ensures Sorted(gs[..i] + [g] + gs[i..])
  {
    var r := gs[..i] + [g] + gs[i..];
    forall a, b | 0 <= a < b < |r| ensures Above(r[a], r[b]) {
      if a == i {
        assert r[b] == gs[b - 1];
      }
    }
  }

  /** The granules of all functions, each once. */
  method CollectGranules(functions: seq<seq<Granule>>) returns (gs: seq<Granule>)
    ensures Sorted(gs)
    ensures forall x :: x in gs <==> exists f :: 0 <= f < |functions| && x in functions[f]
  {
    gs := [];
    for f := 0 to |functions|
      invariant Sorted(gs)
      invariant forall x :: x in gs <==> exists e :: 0 <= e < f && x in functions[e]
    {
      ghost var before := gs;
      for i := 0 to |functions[f]|
        invariant Sorted(gs)
        invariant forall x :: x in gs <==> x in before || x in functions[f][..i]
      {
        gs := InsertGranule(gs, functions[f][i]);
      }
      assert functions[f][..|functions[f]|] == functions[f];
    }
  }

  predicate Divides(a: nat, b: nat) {
    if b == 0 then true else if a == 0 || b < a then false else Divides(a, b - a)
  }

  /** The first multiple of `step` that is not below `key`. */
  ghost predicate FirstMultiple(key: nat, step: nat, at: nat) {
    key <= at < key + step && Divides(step, at)
  }

  method FirstAlignedAfter(keySize: nat, step: nat) returns (payloadOffset: nat)
    requires step > 0
    ensures FirstMultiple(keySize, step, keySize + payloadOffset)
  {
    payloadOffset := 0;
    while payloadOffset < keySize
      invariant Divides(step, payloadOffset) && payloadOffset < keySize + step
    {
      payloadOffset := payloadOffset + step;
    }
    payloadOffset := payloadOffset - keySize;
  }

  /** A granule lies behind everything in front of it in the set. */
  ghost predicate Located(gs: seq<Granule>, payloadOffset: nat, g: Granule, offset: nat) {
    exists at: nat :: at < |gs| && gs[at] == g && offset == payloadOffset + Before(gs, at)
  }

  method OffsetOf(gs: seq<Granule>, g: Granule, payloadOffset: nat) returns (offset: nat)
    requires g in gs
    ensures Located(gs, payloadOffset, g, offset)
  {
    var i := 0;
    offset := payloadOffset;
    while gs[i] != g
      invariant 0 <= i < |gs| && offset == payloadOffset + Before(gs, i)
      invariant exists j :: i <= j < |gs| && gs[j] == g
      decreases |gs| - i
    {
      offset := offset + gs[i].size;
      i := i + 1;
    }
  }

  /** The plan: granules in order, and for every function where its granules are, counted from behind the key. */
  datatype Layout = Layout(granules: seq<Granule>, payloadOffset: nat, payloadSize: nat, offsets: seq<seq<nat>>)

  ghost predicate Planned(functions: seq<seq<Granule>>, keySize: nat, l: Layout) {
    && Sorted(l.granules) && |l.granules| > 0
    && (forall x :: x in l.granules <==> exists f :: 0 <= f < |functions| && x in functions[f])
    && FirstMultiple(keySize, l.granules[|l.granules| - 1].size, keySize + l.payloadOffset)
    && l.payloadSize == l.payloadOffset + Before(l.granules, |l.granules|)
    && OffsetsRight(functions, l)
  }

  ghost predicate OffsetsRight(functions: seq<seq<Granule>>, l: Layout) {
    && |l.offsets| == |functions|
    && forall f :: 0 <= f < |functions| ==> FunctionRight(functions[f], l.offsets[f], l)
  }

  ghost predicate FunctionRight(needs: seq<Granule>, offsets: seq<nat>, l: Layout) {
    && |offsets| == |needs|
    && forall i :: 0 <= i < |needs| ==> Located(l.granules, l.payloadOffset, needs[i], offsets[i])
  }

  method Plan(keySize: nat, functions: seq<seq<Granule>>) returns (l: Layout)
    requires exists f :: 0 <= f < |functions| && functions[f] != []
    requires forall f, i :: 0 <= f < |functions| && 0 <= i < |functions[f]| ==> functions[f][i].size > 0
    ensures Planned(functions, keySize, l)
  {
    var gs := CollectGranules(functions);
    ghost var f :| 0 <= f < |functions| && functions[f] != [];
    assert functions[f][0] in functions[f];
    assert functions[f][0] in gs;
    var smallest := gs[|gs| - 1];
    assert smallest in gs;
    var payloadOffset := FirstAlignedAfter(keySize, smallest.size);
    var payloadSize := payloadOffset;
    for n := 0 to |gs|
      invariant payloadSize == payloadOffset + Before(gs, n)
    {
      payloadSize := payloadSize + gs[n].size;
    }
    var offsets := LocateAll(gs, payloadOffset, functions);
    l := Layout(gs, payloadOffset, payloadSize, offsets);
  }

  method LocateAll(gs: seq<Granule>, payloadOffset: nat, functions: seq<seq<Granule>>) returns (offsets: seq<seq<nat>>)
    requires forall f :: 0 <= f < |functions| ==> forall x :: x in functions[f] ==> x in gs
    ensures forall size :: OffsetsRight(functions, Layout(gs, payloadOffset, size, offsets))
  {
    offsets := [];
    for f := 0 to |functions|
      invariant |offsets| == f
      invariant forall e :: 0 <= e < f ==> FunctionRight(functions[e], offsets[e], Layout(gs, payloadOffset, 0, []))
    {
      var own: seq<nat> := [];
      for i := 0 to |functions[f]|
        invariant |own| == i
        invariant forall j :: 0 <= j < i ==> Located(gs, payloadOffset, functions[f][j], own[j])
      {
        var offset := OffsetOf(gs, functions[f][i], payloadOffset);
        own := own + [offset];
      }
      offsets := offsets + [own];
    }
    forall size, f | 0 <= f < |functions|
      ensures FunctionRight(functions[f], offsets[f], Layout(gs, payloadOffset, size, offsets))
    {
      assert FunctionRight(functions[f], offsets[f], Layout(gs, payloadOffset, 0, []));
    }
  }

  // ---------------------------------------------------------------------------------------------
  // Using the layout
  // ---------------------------------------------------------------------------------------------

  const OFFSETS := 0x1_0000

  /** The offsets of updaters and readers are runtime parameters of 16 bits. The merger computes with full integers. */
  function Cut(offset: nat): nat {
    offset % OFFSETS
  }

  /** The merger walks over the granules and advances an offset that starts behind the key. */
  method WalkOffsets(keySize: nat, payloadOffset: nat, granules: seq<Granule>) returns (offsets: seq<nat>)
    ensures |offsets| == |granules|
    ensures forall i {:trigger offsets[i]} :: 0 <= i < |granules| ==> offsets[i] == keySize + payloadOffset + Before(granules, i)
  {
    offsets := [];
    var curr := keySize + payloadOffset;
    for i := 0 to |granules|
      invariant |offsets| == i && curr == keySize + payloadOffset + Before(granules, i)
      invariant forall j {:trigger offsets[j]} :: 0 <= j < i ==> offsets[j] == keySize + payloadOffset + Before(granules, j)
    {
      offsets := offsets + [curr];
      curr := curr + granules[i].size;
    }
  }

  /** The updaters get their offsets by the same walk, cut. */
  method AttachUpdaters(keySize: nat, payloadOffset: nat, granules: seq<Granule>) returns (offsets: seq<nat>)
    ensures |offsets| == |granules|
    ensures forall i {:trigger offsets[i]} :: 0 <= i < |granules| ==> offsets[i] == Cut(keySize + payloadOffset + Before(granules, i))
  {
    offsets := [];
    var curr := keySize + payloadOffset;
    for i := 0 to |granules|
      invariant |offsets| == i && curr == keySize + payloadOffset + Before(granules, i)
      invariant forall j {:trigger offsets[j]} :: 0 <= j < i ==> offsets[j] == Cut(keySize + payloadOffset + Before(granules, j))
    {
      offsets := offsets + [Cut(curr)];
      curr := curr + granules[i].size;
    }
  }

  /** Main theorem: a reader finds each granule where it is updated, and that is where it is merged iff 16 bits hold its offset. */
  lemma ReadersMeetUpdaters(functions: seq<seq<Granule>>, keySize: nat, l: Layout, walked: seq<nat>, updated: seq<nat>,
                            f: nat, i: nat, at: nat)
    requires Planned(functions, keySize, l)
    requires |walked| == |updated| == |l.granules|
    requires forall j {:trigger walked[j]} :: 0 <= j < |walked| ==> walked[j] == keySize + l.payloadOffset + Before(l.granules, j)
    requires forall j {:trigger updated[j]} ::
      0 <= j < |updated| ==> updated[j] == Cut(keySize + l.payloadOffset + Before(l.granules, j))
    requires f < |functions| && i < |functions[f]| && at < |l.granules|
    ensures |l.offsets| == |functions| && |l.offsets[f]| == |functions[f]|
    ensures l.granules[at] == functions[f][i] ==>
      Cut(keySize + l.offsets[f][i]) == updated[at] && (updated[at] == walked[at] <==> walked[at] < OFFSETS)
  {
    assert FunctionRight(functions[f], l.offsets[f], l);
    assert Located(l.granules, l.payloadOffset, functions[f][i], l.offsets[f][i]);
    var found: nat :| found < |l.granules| && l.granules[found] == functions[f][i]
                      && l.offsets[f][i] == l.payloadOffset + Before(l.granules, found);
    if l.granules[at] == functions[f][i] {
      SortedIsInjective(l.granules, at, found);
    }
  }

  /** Updates and merges agree on all granules iff they agree on the last one. */
  lemma OffsetsFitIff(keySize: nat, payloadOffset: nat, granules: seq<Granule>)
    requires granules != []
    ensures (forall i :: 0 <= i < |granules| ==>
               Cut(keySize + payloadOffset + Before(granules, i)) == keySize + payloadOffset + Before(granules, i))
       <==> keySize + payloadOffset + Before(granules, |granules| - 1) < OFFSETS
  {
    var last := |granules| - 1;
    forall i | 0 <= i < last ensures Before(granules, i) <= Before(granules, last) {
      BeforeGrows(granules, i, last);
    }
    assert Cut(keySize + payloadOffset + Before(granules, last)) < OFFSETS;
  }

  /** Granules lie behind the key and inside of the slot, and do not overlap. */
  lemma GranulesFit(functions: seq<seq<Granule>>, keySize: nat, l: Layout, i: nat, j: nat)
    requires Planned(functions, keySize, l) && i < j < |l.granules|
    ensures var start := keySize + l.payloadOffset;
      && keySize <= start + Before(l.granules, i)
      && start + Before(l.granules, i) + l.granules[i].size <= start + Before(l.granules, j)
      && start + Before(l.granules, j) + l.granules[j].size <= keySize + l.payloadSize
  {
    BeforeGrows(l.granules, i, j);
    BeforeGrows(l.granules, j, |l.granules|);
  }

  // ---------------------------------------------------------------------------------------------
  // Alignment
  // ---------------------------------------------------------------------------------------------

  lemma {:induction false} DividesSum(a: nat, x: nat, y: nat)
    requires Divides(a, y)
    ensures Divides(a, x + y) == Divides(a, x)
  {
    if y != 0 {
      DividesSum(a, x, y - a);
    }
  }

  lemma {:induction false} DividesThrough(a: nat, b: nat, c: nat)
    requires Divides(a, b) && Divides(b, c)
    ensures Divides(a, c)
  {
    if c != 0 {
      DividesThrough(a, b, c - b);
      DividesSum(a, c - b, b);
    }
  }

  /** Every size divides all larger ones, as powers of two do. */
  ghost predicate SizesNest(gs: seq<Granule>) {
    && (forall i :: 0 <= i < |gs| ==> gs[i].size > 0)
    && forall i, j :: 0 <= i < j < |gs| ==> Nests(gs, i, j)
  }

  ghost predicate Nests(gs: seq<Granule>, i: nat, j: nat)
    requires i < j < |gs|
  {
    gs[i].size >= gs[j].size && Divides(gs[j].size, gs[i].size)
  }

  lemma {:induction false} PowerDivides(j: nat, i: nat)
    requires j <= i
    ensures Divides(Pow2(j), Pow2(i))
  {
    if j < i {
      PowerDivides(j, i - 1);
      DividesSum(Pow2(j), Pow2(i - 1), Pow2(i - 1));
    }
  }

  /** The sizes of granules nest, since they are powers of two and come in descending order. */
  lemma PowersNest(gs: seq<Granule>)
    requires Sorted(gs) && forall i :: 0 <= i < |gs| ==> IsPower(gs[i].size)
    ensures SizesNest(gs)
  {
    forall i, j | 0 <= i < j < |gs| ensures Nests(gs, i, j) {
      assert Above(gs[i], gs[j]) && IsPower(gs[i].size) && IsPower(gs[j].size);
      var a: nat :| gs[i].size == Pow2(a);
      var b: nat :| gs[j].size == Pow2(b);
      if a < b {
        Pow2Monotone(a, b - 1);
        assert false;
      }
      PowerDivides(b, a);
    }
    assert forall i :: 0 <= i < |gs| ==> IsPower(gs[i].size);
  }

  ghost predicate IsPower(size: nat) {
    exists k: nat {:trigger Pow2(k)} :: size == Pow2(k)
  }

  predicate Aligned(gs: seq<Granule>, start: nat, i: nat)
    requires i < |gs|
  {
    Divides(gs[i].size, start + Before(gs, i))
  }

  lemma {:induction false} PrefixAligned(gs: seq<Granule>, i: nat, n: nat)
    requires SizesNest(gs) && n <= i < |gs|
    ensures Divides(gs[i].size, Before(gs, n))
  {
    if n != 0 {
      PrefixAligned(gs, i, n - 1);
      assert Nests(gs, n - 1, i);
      DividesSum(gs[i].size, Before(gs, n - 1), gs[n - 1].size);
    }
  }

  /** Behind any start, a granule is aligned exactly if the start is a multiple of its size. */
  lemma AlignedIff(gs: seq<Granule>, start: nat, i: nat)
    requires SizesNest(gs) && i < |gs|
    ensures Aligned(gs, start, i) == Divides(gs[i].size, start)
  {
    PrefixAligned(gs, i, i);
    DividesSum(gs[i].size, start, Before(gs, i));
  }

  /** Some multiple of `size` is among the `width` numbers from `key` on. */
  ghost predicate MultipleWithin(size: nat, key: nat, width: nat) {
    exists m: nat :: key <= m < key + width && Divides(size, m)
  }

  lemma OneMultiple(step: nat, key: nat, x: nat, y: nat)
    requires key <= x <= y < key + step && Divides(step, x) && Divides(step, y)
    ensures x == y
  {
    DividesSum(step, y - x, x);
  }

  lemma StartAlignedIff(size: nat, step: nat, key: nat, start: nat)
    requires Divides(step, size) && FirstMultiple(key, step, start)
    ensures Divides(size, start) == MultipleWithin(size, key, step)
  {
    if m: nat :| key <= m < key + step && Divides(size, m) {
      DividesThrough(step, size, m);
      if m <= start {
        OneMultiple(step, key, m, start);
      } else {
        OneMultiple(step, key, start, m);
      }
    }
  }

  lemma MultipleWithinIff(size: nat, key: nat, width: nat)
    requires size > 0 && width > 0
    ensures MultipleWithin(size, key, width) == (key % size == 0 || size - key % size < width)
  {
    Division(key, size);
    DividesProduct(size, key / size);
    MultipleBehindIff(size, key, width, key % size);
  }

  lemma MultipleBehindIff(size: nat, key: nat, width: nat, r: nat)
    requires r < size && r <= key && width > 0 && Divides(size, key - r)
    ensures MultipleWithin(size, key, width) == (r == 0 || size - r < width)
  {
    assert Divides(size, size);
    DividesSum(size, size, key - r);
    if r == 0 {
      assert Divides(size, key);
    } else if size - r < width {
      assert Divides(size, size + (key - r));
    }
    if m: nat :| key <= m < key + width && Divides(size, m) {
      if m < key - r + size {
        OneMultiple(size, key - r, key - r, m);
      }
    }
  }

  lemma {:induction false} DividesProduct(size: nat, n: nat)
    ensures Divides(size, size * n)
  {
    if n != 0 {
      DividesProduct(size, n - 1);
      Distribute(size, n, 1);
      DividesSum(size, size, size * (n - 1));
    }
  }

  /** A granule behind a start that was rounded up to the smallest granule. */
  lemma RoundedAlignedIff(gs: seq<Granule>, keySize: nat, start: nat, i: nat)
    requires SizesNest(gs) && i < |gs| && FirstMultiple(keySize, gs[|gs| - 1].size, start)
    ensures Aligned(gs, start, i) == MultipleWithin(gs[i].size, keySize, gs[|gs| - 1].size)
  {
    AlignedIff(gs, start, i);
    if i == |gs| - 1 {
      assert Divides(gs[i].size, gs[i].size);
    } else {
      assert Nests(gs, i, |gs| - 1);
    }
    StartAlignedIff(gs[i].size, gs[|gs| - 1].size, keySize, start);
  }

  ghost predicate AllAligned(gs: seq<Granule>, start: nat) {
    forall i :: 0 <= i < |gs| ==> Aligned(gs, start, i)
  }

  /** If the largest granule is aligned, then all of them are. */
  lemma LargestDecides(gs: seq<Granule>, start: nat)
    requires SizesNest(gs) && |gs| > 0
    ensures AllAligned(gs, start) == Divides(gs[0].size, start)
  {
    assert Aligned(gs, start, 0) == Divides(gs[0].size, start);
    if Divides(gs[0].size, start) {
      forall i | 0 <= i < |gs| ensures Aligned(gs, start, i) {
        AlignedLikeLargest(gs, start, i);
      }
    }
  }

  lemma AlignedLikeLargest(gs: seq<Granule>, start: nat, i: nat)
    requires SizesNest(gs) && i < |gs| && Divides(gs[0].size, start)
    ensures Aligned(gs, start, i)
  {
    AlignedIff(gs, start, i);
    if i > 0 {
      assert Nests(gs, 0, i);
      DividesThrough(gs[i].size, gs[0].size, start);
    }
  }

  /** Where the payload of slot `s` starts. Slots of a table follow one another without padding, from an aligned address on. */
  function PayloadStart(keySize: nat, l: Layout, s: nat): nat {
    (keySize + l.payloadSize) * s + (keySize + l.payloadOffset)
  }

  /** Granule `i` is aligned in every slot of a table. */
  ghost predicate AlignedInTable(keySize: nat, l: Layout, i: nat)
    requires i < |l.granules|
  {
    forall s: nat :: Aligned(l.granules, PayloadStart(keySize, l, s), i)
  }

  lemma {:induction false} DividesMultiple(size: nat, stride: nat, s: nat)
    requires Divides(size, stride)
    ensures Divides(size, stride * s)
  {
    if s != 0 {
      DividesMultiple(size, stride, s - 1);
      Distribute(stride, s, 1);
      DividesSum(size, stride * (s - 1), stride);
    }
  }

  /** If the second slot is like the first one, then so are all others. */
  lemma StrideDecides(size: nat, stride: nat, start: nat, s: nat)
    requires Divides(size, start)
    ensures Divides(size, stride) ==> Divides(size, stride * s + start)
    ensures Divides(size, stride * 1 + start) ==> Divides(size, stride)
  {
    DividesSum(size, stride, start);
    if Divides(size, stride) {
      DividesMultiple(size, stride, s);
      DividesSum(size, stride * s, start);
    }
  }

  lemma AlignedInTableIff(keySize: nat, l: Layout, i: nat)
    requires SizesNest(l.granules) && i < |l.granules|
    requires l.payloadSize == l.payloadOffset + Before(l.granules, |l.granules|)
    ensures AlignedInTable(keySize, l, i)
         == (Aligned(l.granules, keySize + l.payloadOffset, i) && Divides(l.granules[i].size, Before(l.granules, |l.granules|)))
  {
    var size, stride, start := l.granules[i].size, keySize + l.payloadSize, keySize + l.payloadOffset;
    AlignedIff(l.granules, start, i);
    if AlignedInTable(keySize, l, i) {
      assert Aligned(l.granules, PayloadStart(keySize, l, 0), i) && Aligned(l.granules, PayloadStart(keySize, l, 1), i);
      AlignedIff(l.granules, PayloadStart(keySize, l, 1), i);
      StrideDecides(size, stride, start, 1);
    }
    if Divides(size, start) {
      DividesSum(size, Before(l.granules, |l.granules|), start);
      if Divides(size, stride) {
        forall s: nat ensures Aligned(l.granules, PayloadStart(keySize, l, s), i) {
          StrideDecides(size, stride, start, s);
          AlignedIff(l.granules, PayloadStart(keySize, l, s), i);
        }
      }
    }
  }

  /**
   * Main theorem: in the tables of a planned layout a granule is aligned in all slots exactly if behind the key a multiple of
   * its size comes earlier than the size of the smallest granule, and its size divides the total of all sizes.
   */
  lemma GranuleAlignedIff(functions: seq<seq<Granule>>, keySize: nat, l: Layout, i: nat)
    requires Planned(functions, keySize, l) && SizesNest(l.granules) && i < |l.granules|
    ensures AlignedInTable(keySize, l, i)
         == (&& MultipleWithin(l.granules[i].size, keySize, l.granules[|l.granules| - 1].size)
             && Divides(l.granules[i].size, Before(l.granules, |l.granules|)))
  {
    AlignedInTableIff(keySize, l, i);
    RoundedAlignedIff(l.granules, keySize, keySize + l.payloadOffset, i);
  }

  /** The plan rounds up to the smallest granule, so that this one is aligned in all slots whatever the others are. */
  lemma SmallestIsAligned(functions: seq<seq<Granule>>, keySize: nat, l: Layout)
    requires Planned(functions, keySize, l) && SizesNest(l.granules)
    ensures AlignedInTable(keySize, l, |l.granules| - 1)
  {
    var last := |l.granules| - 1;
    AlignedIff(l.granules, keySize + l.payloadOffset, last);
    SmallestDividesAll(l.granules);
    AlignedInTableIff(keySize, l, last);
  }

  lemma SmallestDividesAll(gs: seq<Granule>)
    requires SizesNest(gs) && |gs| > 0
    ensures Divides(gs[|gs| - 1].size, Before(gs, |gs|))
  {
    var last := |gs| - 1;
    PrefixAligned(gs, last, last);
    assert Divides(gs[last].size, gs[last].size);
    DividesSum(gs[last].size, Before(gs, last), gs[last].size);
  }

  lemma DividesIff(size: nat, total: nat)
    requires size > 0
    ensures Divides(size, total) == (total % size == 0)
  {
    MultipleWithinIff(size, total, 1);
    assert Divides(size, total) ==> MultipleWithin(size, total, 1);
  }

  /** All granules are aligned in all slots if the largest one is. */
  lemma LargestDecidesTable(keySize: nat, l: Layout)
    requires SizesNest(l.granules) && |l.granules| > 0
    ensures (forall i :: 0 <= i < |l.granules| ==> AlignedInTable(keySize, l, i)) == AlignedInTable(keySize, l, 0)
  {
    if AlignedInTable(keySize, l, 0) {
      forall i, s: nat | 0 <= i < |l.granules| ensures Aligned(l.granules, PayloadStart(keySize, l, s), i) {
        assert Aligned(l.granules, PayloadStart(keySize, l, s), 0);
        LargestDecides(l.granules, PayloadStart(keySize, l, s));
        assert AllAligned(l.granules, PayloadStart(keySize, l, s));
      }
    }
  }

  /**
   * So there are no unaligned updates exactly if the size of the key comes close enough to a multiple of the largest granule,
   * and all granules together are a multiple of it.
   */
  lemma AllAlignedIff(functions: seq<seq<Granule>>, keySize: nat, l: Layout)
    requires Planned(functions, keySize, l) && SizesNest(l.granules)
    ensures var largest, smallest := l.granules[0].size, l.granules[|l.granules| - 1].size;
      (forall i :: 0 <= i < |l.granules| ==> AlignedInTable(keySize, l, i))
      == (&& (keySize % largest == 0 || largest - keySize % largest < smallest)
          && Before(l.granules, |l.granules|) % largest == 0)
  {
    LargestDecidesTable(keySize, l);
    GranuleAlignedIff(functions, keySize, l, 0);
    MultipleWithinIff(l.granules[0].size, keySize, l.granules[|l.granules| - 1].size);
    DividesIff(l.granules[0].size, Before(l.granules, |l.granules|));
  }

  lemma TwoGranules(gs: seq<Granule>, a: Granule, b: Granule)
    requires Sorted(gs) && Above(a, b) && a in gs && b in gs
    requires forall k :: 0 <= k < |gs| ==> gs[k] == a || gs[k] == b
    ensures gs == [a, b]
  {
    var i :| 0 <= i < |gs| && gs[i] == a;
    var j :| 0 <= j < |gs| && gs[j] == b;
    forall k | 0 <= k < |gs| ensures (gs[k] == a && k == i) || (gs[k] == b && k == j) {
      if gs[k] == a {
        SortedIsInjective(gs, k, i);
      } else {
        SortedIsInjective(gs, k, j);
      }
    }
    assert i < j;
    assert gs[0] == a;
    assert gs[1] == b;
    assert gs[|gs| - 1] == b;
  }

  /** A count, which always takes eight bytes, and the sum of a column of four bytes. */
  const COUNT := Granule(8, 0, 0)
  const SUM := Granule(4, 1, 1)

  lemma CountAndSum(keySize: nat, l: Layout)
    requires Planned([[COUNT], [SUM]], keySize, l)
    ensures l.granules == [COUNT, SUM] && FirstMultiple(keySize, 4, keySize + l.payloadOffset)
    ensures l.payloadSize == l.payloadOffset + 12
  {
    var functions := [[COUNT], [SUM]];
    assert COUNT in functions[0] && SUM in functions[1];
    forall k | 0 <= k < |l.granules| ensures l.granules[k] == COUNT || l.granules[k] == SUM {
      assert l.granules[k] in l.granules;
    }
    TwoGranules(l.granules, COUNT, SUM);
    assert Before([COUNT, SUM], 2) == Before([COUNT, SUM], 1) + 4;
  }

  /** Behind a key of four bytes, the eight bytes of the count start at offset four. */
  lemma CountBehindShortKey(l: Layout)
    requires Planned([[COUNT], [SUM]], 4, l)
    ensures l.granules == [COUNT, SUM] && !Aligned(l.granules, PayloadStart(4, l, 0), 0)
  {
    CountAndSum(4, l);
    assert Divides(4, 4 + l.payloadOffset) == Divides(4, l.payloadOffset);
  }

  /** Behind a key of eight bytes all is well in the first slot. But slots take 20 bytes, so that the next count is not aligned. */
  lemma CountInSecondSlot(l: Layout)
    requires Planned([[COUNT], [SUM]], 8, l)
    ensures l.granules == [COUNT, SUM] && AllAligned(l.granules, PayloadStart(8, l, 0))
    ensures !Aligned(l.granules, PayloadStart(8, l, 1), 0)
  {
    CountAndSum(8, l);
    assert Divides(4, 8 + l.payloadOffset) == Divides(4, 4 + l.payloadOffset) == Divides(4, l.payloadOffset);
    assert l.payloadOffset == 0;
    assert PayloadStart(8, l, 1) == 28;
    assert Divides(8, 28) == Divides(8, 20) == Divides(8, 12) == Divides(8, 4);
    assert Before([COUNT, SUM], 1) == 8;
    assert Divides(4, 16) == Divides(4, 12) == Divides(4, 8) == Divides(4, 4);
  }
}
