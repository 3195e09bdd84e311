/** The table sizes that joins and merges choose, and what they guarantee about fill. */
module Sizing {
  import opened Products
  import opened Hashing
  import opened ProbeChain
  import opened SharedTable
  import opened VectorizedAggregation
  import opened GroupBy
  import opened AggregationMerger
  import opened ParallelAggregation

  function Max(a: nat, b: nat): nat {
    if a < b then b else a
  }

  /** Leading zeros of `n` in a word of `width` bits, what `__builtin_clzl` counts for 64 bits. */
  function LeadingZeros(n: nat, width: nat): (zeros: nat)
    ensures zeros <= width
  {
    if width == 0 || n >= Pow2(width - 1) then 0 else 1 + LeadingZeros(n, width - 1)
  }

  /** `1ull << (64 - __builtin_clzl(capacity - 1))` for words of 64 bits. */
  function SlotsFor(word: nat, capacity: nat): nat
    requires capacity >= 1
  {
    Pow2(word - LeadingZeros(capacity - 1, word))
  }

  lemma {:induction false} BitsOf(n: nat, width: nat)
    requires 1 <= n < Pow2(width)
    ensures LeadingZeros(n, width) < width
    ensures Pow2(width - LeadingZeros(n, width) - 1) <= n < Pow2(width - LeadingZeros(n, width))
  {
    if n < Pow2(width - 1) {
      BitsOf(n, width - 1);
    }
  }

  lemma {:induction false} Pow2HasOneBit(k: nat)
    ensures BitAnd(Pow2(k), Pow2(k) - 1) == 0
  {
    if k != 0 {
      Pow2HasOneBit(k - 1);
      assert (2 * Pow2(k - 1) - 1) / 2 == Pow2(k - 1) - 1;
    }
  }

  /** The shift yields the next power of two: large enough, less than twice as large, and a size that tables accept. */
  lemma NextPowerOfTwo(word: nat, capacity: nat)
    requires word > 0 && 2 <= capacity <= Pow2(word - 1)
    ensures capacity <= SlotsFor(word, capacity) < 2 * capacity
    ensures BitAnd(SlotsFor(word, capacity), SlotsFor(word, capacity) - 1) == 0
  {
    BitsOf(capacity - 1, word);
    Pow2HasOneBit(word - LeadingZeros(capacity - 1, word));
  }

  /** Between a capacity and twice that capacity there is one power of two. */
  lemma OnePowerBetween(c: nat, i: nat, j: nat)
    requires c <= Pow2(i) < 2 * c && c <= Pow2(j) < 2 * c
    ensures i == j
  {
    var low, high := if i < j then i else j, if i < j then j else i;
    if low != high {
      Pow2Monotone(low + 1, high);
      assert false;
    }
  }

  /** So the shift yields that power, and no other number of slots. */
  lemma SlotsAreThePower(word: nat, capacity: nat, k: nat)
    requires word > 0 && 2 <= capacity <= Pow2(word - 1)
    ensures SlotsFor(word, capacity) == Pow2(k) <==> capacity <= Pow2(k) < 2 * capacity
  {
    var bits: nat := word - LeadingZeros(capacity - 1, word);
    NextPowerOfTwo(word, capacity);
    if capacity <= Pow2(k) < 2 * capacity {
      OnePowerBetween(capacity, k, bits);
    }
  }

  // ---------------------------------------------------------------------------------------------
  // Joins
  // ---------------------------------------------------------------------------------------------

  function JoinSlots(word: nat, rows: nat): nat {
    SlotsFor(word, Max(2, 2 * rows))
  }

  /** A join table is accepted by its constructor, at most half full, and thus fit for the concurrent build and the probes. */
  lemma JoinTableFits(word: nat, rows: nat)
    requires word >= 2 && 2 * rows <= Pow2(word - 1)
    ensures var slots := JoinSlots(word, rows); slots >= 2 && BitAnd(slots, slots - 1) == 0
    ensures 2 * rows <= JoinSlots(word, rows) && (rows >= 1 ==> JoinSlots(word, rows) < 4 * rows)
    ensures rows <= JoinSlots(word, rows) - 1
  {
    assert Pow2(word - 1) == 2 * Pow2(word - 2);
    NextPowerOfTwo(word, Max(2, 2 * rows));
  }

  /** In numbers: of all powers of two, a join table has the one from twice the rows up to less than four times. */
  lemma JoinSlotsAre(word: nat, rows: nat, k: nat)
    requires word >= 2 && 2 * rows <= Pow2(word - 1)
    ensures JoinSlots(word, rows) == Pow2(k) <==> if rows == 0 then k == 1 else 2 * rows <= Pow2(k) < 4 * rows
  {
    assert Pow2(word - 1) == 2 * Pow2(word - 2);
    SlotsAreThePower(word, Max(2, 2 * rows), k);
    if rows == 0 {
      SlotsAreThePower(word, 2, 1);
      if k != 1 && 2 <= Pow2(k) < 4 {
        OnePowerBetween(2, k, 1);
      }
    }
  }

  // ---------------------------------------------------------------------------------------------
  // Merge tables
  // ---------------------------------------------------------------------------------------------

  /** Keys per worker if the hashes split them evenly, but no less than eight. */
  function Expected(totalKeys: nat, threads: nat): nat
    requires threads > 0
  {
    Max(8, totalKeys / threads)
  }

  /** The capacity of a merge table: 2.4 times the expected number of keys, truncated. */
  function MergeSlots(word: nat, expected: nat): nat
    requires expected >= 8
  {
    SlotsFor(word, 12 * expected / 5)
  }

  ghost predicate MergeSizeInRange(word: nat, expected: nat) {
    word >= 6 && expected >= 8 && 12 * expected / 5 <= Pow2(word - 1)
  }

  lemma MergeTableSize(word: nat, expected: nat)
    requires MergeSizeInRange(word, expected)
    ensures var slots := MergeSlots(word, expected); slots >= 2 && BitAnd(slots, slots - 1) == 0
    ensures expected < MergeSlots(word, expected) / 2 < 12 * expected / 5
  {
    NextPowerOfTwo(word, 12 * expected / 5);
    PowerOfTwoIsEven(MergeSlots(word, expected));
  }

  /**
   * In numbers: with `e` keys per thread, or eight if these are more, a merge table has of all powers of two the one from
   * 2.4 times `e` up to less than twice of that.
   */
  lemma MergeSlotsAre(word: nat, totalKeys: nat, threads: nat, k: nat)
    requires threads > 0 && word >= 6
    requires var e := if totalKeys / threads < 8 then 8 else totalKeys / threads; 12 * e / 5 <= Pow2(word - 1)
    ensures var e := if totalKeys / threads < 8 then 8 else totalKeys / threads;
      MergeSlots(word, Expected(totalKeys, threads)) == Pow2(k) <==> 12 * e / 5 <= Pow2(k) < 2 * (12 * e / 5)
  {
    SlotsAreThePower(word, 12 * Expected(totalKeys, threads) / 5, k);
  }

  /** The slack is real: a first merge of up to 1.2 times the groups of an even split, or of eight, loses nothing. */
  lemma SkewWithinSlack<V>(word: nat, zero: V, add: (V, V) -> V, part: seq<Row<V>>, totalKeys: nat, threads: nat)
    requires threads > 0 && MergeSizeInRange(word, Expected(totalKeys, threads)) && DistinctKeys(part)
    requires 5 * |part| <= 6 * if totalKeys / threads < 8 then 8 else totalKeys / threads
    ensures MergeOutcome(map[], zero, add, part, MergeSlots(word, Expected(totalKeys, threads)) / 2)
         == Fold(map[], zero, add, part)
  {
    var limit := MergeSlots(word, Expected(totalKeys, threads)) / 2;
    MergeTableSize(word, Expected(totalKeys, threads));
    HalfIsEnough(word, Expected(totalKeys, threads), |part|);
    if |part| > 1 {
      DistinctCounts(zero, part, |part| - 1);
    }
    MergeExact(map[], zero, add, part, limit);
  }

  lemma HalfIsEnough(word: nat, expected: nat, n: nat)
    requires MergeSizeInRange(word, expected) && 5 * n <= 6 * expected
    ensures n <= MergeSlots(word, expected) / 2
  {
    NextPowerOfTwo(word, 12 * expected / 5);
  }

  /** Thirty groups on two threads make merge tables of 64 slots, so that the first 32 groups of a worker fit. */
  lemma ThirtyGroupsFit()
    ensures MergeSlots(64, Expected(30, 2)) == 64
  {
    Pow2Monotone(6, 63);
    assert Pow2(6) == 64;
    MergeSlotsAre(64, 30, 2, 6);
  }

  /**
   * A worker whose partition has no more distinct keys than an even split gives, or than eight, merges without loss, and so does
   * one with up to a fifth more but one.
   */
  lemma BalancedMergeIsGroupBy<V(!new)>(tables: seq<Frozen<V>>, hash: Key -> Hash, zero: V, add: (V, V) -> V,
                                        inputs: seq<seq<Row<V>>>, rows: seq<Row<V>>, id: nat, threads: nat, keys: set<Key>,
                                        totalKeys: nat, word: nat, k: Key)
    requires LocalAggregates(tables, hash, zero, add, inputs)
    requires Monoid(zero, add) && Commutative(add)
    requires multiset(Joined(inputs, |inputs|)) == multiset(rows)
    requires threads > 0 && MergeSizeInRange(word, Expected(totalKeys, threads))
    requires forall r :: r in rows && hash(r.key) % threads == id ==> r.key in keys
    requires 5 * (|keys| + 1) <= 6 * Expected(totalKeys, threads)
    ensures var result := WorkerResult(tables, zero, add, id, threads, MergeSlots(word, Expected(totalKeys, threads)) / 2);
      && (k in result <==> HasKey(rows, k) && hash(k) % threads == id)
      && (k in result ==> result[k] == GroupSum(zero, add, rows, k))
  {
    var limit: nat, parts: seq<seq<Row<V>>> := MergeSlots(word, Expected(totalKeys, threads)) / 2, Shares(tables, id, threads);
    MergeTableSize(word, Expected(totalKeys, threads));
    HalfIsEnough(word, Expected(totalKeys, threads), |keys| + 1);
    forall i, j | 0 <= i < |parts| && 0 <= j < |parts[i]| ensures parts[i][j].key in keys {
      var key := parts[i][j].key;
      JoinedHasPart(parts, i, |parts|, key);
      SharesAddUp(tables, hash, zero, add, inputs, id, threads, key);
      HasKeyPermutation(Joined(inputs, |inputs|), rows, key);
    }
    FewKeysFit(zero, add, parts, keys, limit);
    ParallelAggregationIsGroupBy(tables, hash, zero, add, inputs, rows, id, threads, limit, k);
  }

  lemma {:induction false} JoinedHasPart<V>(parts: seq<seq<Row<V>>>, i: nat, n: nat, k: Key)
    requires i < n <= |parts| && HasKey(parts[i], k)
    ensures HasKey(Joined(parts, n), k)
    decreases n
  {
    HasKeyConcat(Joined(parts, n - 1), parts[n - 1], k);
    if i < n - 1 {
      JoinedHasPart(parts, i, n - 1, k);
    }
  }

  /**
   * Exact condition for the first merge of a worker, whose target is still empty: its sums are right iff the groups of the
   * local table that belong to the worker are no more than half of the slots. `totalKeys` counts the groups of all local
   * tables, this one and the others.
   */
  lemma FirstMergeExactIff(word: nat, part: seq<Row<int>>, totalKeys: nat, threads: nat)
    requires threads > 0 && |part| <= totalKeys && MergeSizeInRange(word, Expected(totalKeys, threads))
    requires DistinctKeys(part) && (part != [] ==> part[0].payload != 0)
    ensures MergeOutcome(map[], 0, Plus, part, MergeSlots(word, Expected(totalKeys, threads)) / 2) == Fold(map[], 0, Plus, part)
       <==> |part| <= MergeSlots(word, Expected(totalKeys, threads)) / 2
  {
    MergeTableSize(word, Expected(totalKeys, threads));
    EmptyTargetExactIff(part, MergeSlots(word, Expected(totalKeys, threads)) / 2);
  }

  /** What a worker loses in its first merge, no later merge makes up for. */
  lemma OverfullWorkerLoses(word: nat, parts: seq<seq<Row<int>>>, totalKeys: nat, threads: nat)
    requires threads > 0 && MergeSizeInRange(word, Expected(totalKeys, threads))
    requires PositiveGroups(parts) && |parts| > 0 && |parts[0]| > MergeSlots(word, Expected(totalKeys, threads)) / 2
    ensures var limit := MergeSlots(word, Expected(totalKeys, threads)) / 2;
      MergedGroups(map[], 0, Plus, parts, |parts|, limit) != Fold(map[], 0, Plus, Joined(parts, |parts|))
  {
    var limit: nat := MergeSlots(word, Expected(totalKeys, threads)) / 2;
    MergeTableSize(word, Expected(totalKeys, threads));
    assert DistinctKeys(parts[0]);
    NewGroupsOverfill(0, parts[0], limit);
    NothingStaleIff(map[], 0, parts[0], limit);
    assert !RoomAt(map[], 0, Plus, parts, 0, limit);
    CountsExactIff(parts, limit);
  }

  /** So an even split is safe, and a share of 2.4 times as many groups never is. */
  lemma SkewedMergeLoses(word: nat, part: seq<Row<int>>, totalKeys: nat, threads: nat)
    requires threads > 0 && |part| <= totalKeys && MergeSizeInRange(word, Expected(totalKeys, threads))
    requires DistinctKeys(part) && (part != [] ==> part[0].payload != 0)
    ensures var limit := MergeSlots(word, Expected(totalKeys, threads)) / 2;
      && (|part| <= Expected(totalKeys, threads) ==> MergeOutcome(map[], 0, Plus, part, limit) == Fold(map[], 0, Plus, part))
      && (|part| >= 12 * Expected(totalKeys, threads) / 5 ==>
            MergeOutcome(map[], 0, Plus, part, limit) != Fold(map[], 0, Plus, part))
  {
    MergeTableSize(word, Expected(totalKeys, threads));
    FirstMergeExactIff(word, part, totalKeys, threads);
  }

  /**
   * With three or more threads and no groups in the other local tables, 17 groups of one worker are already too many,
   * whatever their number.
   */
  lemma SeventeenGroupsLose(word: nat, part: seq<Row<int>>, threads: nat)
    requires threads >= 3 && |part| >= 17 && MergeSizeInRange(word, Expected(|part|, threads))
    requires DistinctKeys(part) && part[0].payload != 0
    ensures MergeOutcome(map[], 0, Plus, part, MergeSlots(word, Expected(|part|, threads)) / 2) != Fold(map[], 0, Plus, part)
  {
    ThirdAtMost(|part|, threads);
    SkewExceeds(word, |part|, |part| / threads);
    FirstMergeExactIff(word, part, |part|, threads);
  }

  lemma SkewExceeds(word: nat, n: nat, average: nat)
    requires n >= 17 && 3 * average <= n && MergeSizeInRange(word, Max(8, average))
    ensures 0 < MergeSlots(word, Max(8, average)) / 2 < n
  {
    if average <= 8 {
      SmallestMergeTable(word);
    } else {
      MergeTableSize(word, average);
      assert 5 * (12 * average / 5) <= 12 * average;
    }
  }

  lemma SmallestMergeTable(word: nat)
    requires word >= 6
    ensures SlotsFor(word, 19) == 32
  {
    Pow2Monotone(5, word);
    BitsOf(18, word);
    var k := word - LeadingZeros(18, word);
    assert Pow2(4) == 16 && Pow2(5) == 32;
    if k < 5 {
      Pow2Monotone(k, 4);
    } else if k > 5 {
      Pow2Monotone(5, k - 1);
    }
  }

  lemma ThirdAtMost(n: nat, threads: nat)
    requires threads >= 3
    ensures 3 * (n / threads) <= n
  {
    assert n == (n / threads) * threads + n % threads;
    assert (n / threads) * threads == (n / threads) * (threads - 3) + (n / threads) * 3;
    assert (n / threads) * (threads - 3) >= 0;
  }
}
