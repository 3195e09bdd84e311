/** Semi and outer joins end to end: parallel build and parallel probes together, as statements about relations. */
module ParallelJoins {
  import opened Options
  import opened Hashing
  import opened ProbeChain
  import opened Bags
  import opened Schedules
  import opened ProbePhase
  import opened AtomicTable
  import opened Relational
  import AtomicBuild
  import SemiJoin
  import OuterJoin

  // ---------------------------------------------------------------------------------------------
  // Counting
  // ---------------------------------------------------------------------------------------------

  function Ticked(): bool -> nat {
    (b: bool) => if b then 1 else 0
  }

  lemma {:induction false} IndexCount(marks: seq<bool>)
    ensures |set i: nat | i < |marks| && marks[i]| == Total(marks, Ticked())
  {
    var all := set i: nat | i < |marks| && marks[i];
    if marks == [] {
      assert all == {};
    } else {
      var n := |marks| - 1;
      var before := set i: nat | i < |marks[..n]| && marks[..n][i];
      assert marks == marks[..n] + [marks[n]];
      TotalConcat(marks[..n], [marks[n]], Ticked());
      IndexCount(marks[..n]);
      assert all == before + if marks[n] then {n} else {};
    }
  }

  /** Which slots hold key `k`. */
  ghost function SlotMarks<V>(built: seq<bv8>, data: seq<Row<V>>, k: Key): (marks: seq<bool>)
    requires |built| == |data|
    ensures |marks| == |data|
    ensures forall i :: 0 <= i < |data| ==> marks[i] == (Filled(built[i]) && data[i].key == k)
    ensures Total(marks, Ticked()) == KeyCount(Stored(built, data), k)
  {
    if built == [] then []
    else
      KeyCountConcat(if Filled(built[0]) then [data[0]] else [], Stored(built[1..], data[1..]), k);
      [Filled(built[0]) && data[0].key == k] + SlotMarks(built[1..], data[1..], k)
  }

  lemma BuildCount<V>(c: Config<V>, k: Key)
    requires |c.built| == |c.data|
    ensures |SemiJoin.BuildSlots(c, k)| == KeyCount(Stored(c.built, c.data), k)
  {
    var marks := SlotMarks(c.built, c.data, k);
    IndexCount(marks);
    assert SemiJoin.BuildSlots(c, k) == set i: nat | i < |marks| && marks[i];
  }

  // ---------------------------------------------------------------------------------------------
  // Semi joins
  // ---------------------------------------------------------------------------------------------

  function ResultOf(probe: Probe<SemiJoin.Pc>): Option<nat> {
    if probe.pc.Done? then probe.pc.result else None
  }

  function RowOf<V>(data: seq<Row<V>>, probe: Probe<SemiJoin.Pc>): seq<Row<V>> {
    match ResultOf(probe)
    case Some(i) => if i < |data| then [data[i]] else []
    case None => []
  }

  /** The rows that the probes returned. */
  function SemiResult<V>(data: seq<Row<V>>, probes: seq<Probe<SemiJoin.Pc>>): seq<Row<V>> {
    if probes == [] then [] else RowOf(data, probes[0]) + SemiResult(data, probes[1..])
  }

  ghost predicate ReturnsOwnKey<V>(data: seq<Row<V>>, probe: Probe<SemiJoin.Pc>) {
    ResultOf(probe).Some? ==> ResultOf(probe).value < |data| && data[ResultOf(probe).value].key == probe.key
  }

  /** Which probes came back with a row for key `k`. */
  ghost function WinnerMarks<V>(data: seq<Row<V>>, probes: seq<Probe<SemiJoin.Pc>>, k: Key): (marks: seq<bool>)
    requires forall p :: 0 <= p < |probes| ==> ReturnsOwnKey(data, probes[p])
    ensures |marks| == |probes|
    ensures forall p :: 0 <= p < |probes| ==> marks[p] == (probes[p].key == k && ResultOf(probes[p]).Some?)
    ensures Total(marks, Ticked()) == KeyCount(SemiResult(data, probes), k)
  {
    if probes == [] then []
    else
      assert ReturnsOwnKey(data, probes[0]);
      KeyCountConcat(RowOf(data, probes[0]), SemiResult(data, probes[1..]), k);
      [probes[0].key == k && ResultOf(probes[0]).Some?] + WinnerMarks(data, probes[1..], k)
  }

  lemma ResultCount<V>(c: Config<V>, s: SemiJoin.State, k: Key)
    requires SemiJoin.Inv(c, s)
    ensures KeyCount(SemiResult(c.data, s.probes), k) == |SemiJoin.Winners(s, k)|
  {
    forall p | 0 <= p < |s.probes| ensures ReturnsOwnKey(c.data, s.probes[p]) {
      assert SemiJoin.ProbeOk(c, s, p);
      if ResultOf(s.probes[p]).Some? {
        assert SemiJoin.SlotOk(c, s, ResultOf(s.probes[p]).value);
      }
    }
    var marks := WinnerMarks(c.data, s.probes, k);
    IndexCount(marks);
    assert SemiJoin.Winners(s, k) == set i: nat | i < |marks| && marks[i];
  }

  lemma ProbeCount(s: SemiJoin.State, k: Key)
    ensures |SemiJoin.ProbesFor(s, k)| == multiset(ProbeKeys(s.probes))[k]
  {
    var keys := ProbeKeys(s.probes);
    var marks := seq(|keys|, p requires 0 <= p < |keys| => keys[p] == k);
    IndexCount(marks);
    assert SemiJoin.ProbesFor(s, k) == set i: nat | i < |marks| && marks[i];
    MarkKey(keys, marks, k);
  }

  lemma {:induction false} MarkKey(keys: seq<Key>, marks: seq<bool>, k: Key)
    requires |marks| == |keys| && forall p :: 0 <= p < |keys| ==> marks[p] == (keys[p] == k)
    ensures Total(marks, Ticked()) == multiset(keys)[k]
  {
    if keys != [] {
      assert keys == [keys[0]] + keys[1..];
      MarkKey(keys[1..], marks[1..], k);
    }
  }

  function Min(a: nat, b: nat): nat {
    if a <= b then a else b
  }

  /** What a finished build left is the table that the probes start from. */
  ghost function Finished<V>(c: AtomicBuild.Config, end: AtomicBuild.State<V>): Config<V> {
    ProbePhase.Config(c.hash, c.mask, end.tags, end.data)
  }

  /** All tuples fit, and every worker is through. */
  ghost predicate Built<V>(c: AtomicBuild.Config, start: AtomicBuild.State<V>, materialised: seq<seq<seq<Row<V>>>>,
                           schedule: seq<nat>)
  {
    && AtomicBuild.Initial(c, start, materialised) && |start.workers| > 0
    && |AtomicBuild.MaterialisedRows(materialised)| <= c.mask
    && ValidSchedule(schedule, |start.workers|)
    && AtomicBuild.AllFinished(AtomicBuild.Run(c, start, schedule))
  }

  /**
   * The parallel semi join end to end, with or without duplicate keys: materialise on any number of threads, build and probe
   * under any interleavings. Of each key, as many rows are returned as were materialised, but no more than there are probes.
   */
  lemma ParallelSemiJoinCounts<V(!new)>(
      c: AtomicBuild.Config, start: AtomicBuild.State<V>, materialised: seq<seq<seq<Row<V>>>>, building: seq<nat>,
      s: SemiJoin.State, schedule: seq<nat>, k: Key)
    requires c.tagOf == TargetTag && Built(c, start, materialised, building)
    requires SemiJoin.Initial(Finished(c, AtomicBuild.Run(c, start, building)), s) && ValidSchedule(schedule, |s.probes|)
    requires SemiJoin.AllDone(SemiJoin.Run(Finished(c, AtomicBuild.Run(c, start, building)), s, schedule))
    ensures var table := Finished(c, AtomicBuild.Run(c, start, building));
      KeyCount(SemiResult(table.data, SemiJoin.Run(table, s, schedule).probes), k)
      == Min(KeyCount(AtomicBuild.MaterialisedRows(materialised), k), multiset(ProbeKeys(s.probes))[k])
  {
    var table := Finished(c, AtomicBuild.Run(c, start, building));
    AtomicBuild.BuildIsComplete(c, start, materialised, building);
    KeyCountPermutation(Stored(table.built, table.data), AtomicBuild.MaterialisedRows(materialised), k);
    SemiJoinRows(table, s, schedule, k);
  }

  lemma SemiJoinRows<V>(c: Config<V>, s: SemiJoin.State, schedule: seq<nat>, k: Key)
    requires SemiJoin.Initial(c, s) && ValidSchedule(schedule, |s.probes|)
    requires SemiJoin.AllDone(SemiJoin.Run(c, s, schedule))
    ensures KeyCount(SemiResult(c.data, SemiJoin.Run(c, s, schedule).probes), k)
         == Min(KeyCount(Stored(c.built, c.data), k), multiset(ProbeKeys(s.probes))[k])
  {
    var end := SemiJoin.Run(c, s, schedule);
    SemiJoin.InitialInv(c, s);
    SemiJoin.RunKeepsInv(c, s, schedule);
    ResultCount(c, end, k);
    SemiJoin.WinnersMatchRows(c, end, k);
    SemiJoin.SemiJoinCounts(c, s, schedule, k);
    BuildCount(c, k);
    ProbeCount(s, k);
  }

  lemma {:induction false} ResultIsStored<V>(c: Config<V>, probes: seq<Probe<SemiJoin.Pc>>, row: Row<V>)
    requires |c.built| == |c.data|
    requires forall p :: 0 <= p < |probes| && ResultOf(probes[p]).Some? ==>
               ResultOf(probes[p]).value < |c.data| && Filled(c.built[ResultOf(probes[p]).value])
    ensures row in SemiResult(c.data, probes) ==> row in Stored(c.built, c.data)
  {
    if probes != [] {
      ResultIsStored(c, probes[1..], row);
      if row in RowOf(c.data, probes[0]) {
        assert c.data[ResultOf(probes[0]).value] == row;
        StoredIff(c.built, c.data, row);
      }
    }
  }

  /**
   * With a primary key on the build side that is the relational semi join: exactly the materialised rows whose key some probe
   * has, each once.
   */
  lemma ParallelSemiJoinIsRelational<V(!new)>(
      c: AtomicBuild.Config, start: AtomicBuild.State<V>, materialised: seq<seq<seq<Row<V>>>>, building: seq<nat>,
      s: SemiJoin.State, schedule: seq<nat>)
    requires c.tagOf == TargetTag && Built(c, start, materialised, building)
    requires DistinctKeys(AtomicBuild.MaterialisedRows(materialised))
    requires SemiJoin.Initial(Finished(c, AtomicBuild.Run(c, start, building)), s) && ValidSchedule(schedule, |s.probes|)
    requires SemiJoin.AllDone(SemiJoin.Run(Finished(c, AtomicBuild.Run(c, start, building)), s, schedule))
    ensures var table := Finished(c, AtomicBuild.Run(c, start, building));
      multiset(SemiResult(table.data, SemiJoin.Run(table, s, schedule).probes))
      == multiset(WithPartner(AtomicBuild.MaterialisedRows(materialised), ProbeKeys(s.probes)))
  {
    var table := Finished(c, AtomicBuild.Run(c, start, building));
    AtomicBuild.BuildIsComplete(c, start, materialised, building);
    SemiJoinIsRelational(table, s, schedule, AtomicBuild.MaterialisedRows(materialised));
  }

  lemma SemiJoinIsRelational<V(!new)>(c: Config<V>, s: SemiJoin.State, schedule: seq<nat>, rows: seq<Row<V>>)
    requires SemiJoin.Initial(c, s) && ValidSchedule(schedule, |s.probes|)
    requires SemiJoin.AllDone(SemiJoin.Run(c, s, schedule))
    requires multiset(Stored(c.built, c.data)) == multiset(rows) && DistinctKeys(rows)
    ensures multiset(SemiResult(c.data, SemiJoin.Run(c, s, schedule).probes)) == multiset(WithPartner(rows, ProbeKeys(s.probes)))
  {
    var result := SemiResult(c.data, SemiJoin.Run(c, s, schedule).probes);
    forall row | row in result ensures row in rows {
      ReturnedRowIsStored(c, s, schedule, row);
      assert row in multiset(Stored(c.built, c.data));
    }
    forall k ensures KeyCount(result, k) == Min(KeyCount(rows, k), multiset(ProbeKeys(s.probes))[k]) {
      SemiJoinRows(c, s, schedule, k);
      KeyCountPermutation(Stored(c.built, c.data), rows, k);
    }
    CountsAreSemiJoin(rows, ProbeKeys(s.probes), result);
  }

  /** With distinct keys, the counts determine the rows. */
  lemma CountsAreSemiJoin<V(!new)>(rows: seq<Row<V>>, keys: seq<Key>, result: seq<Row<V>>)
    requires DistinctKeys(rows) && forall row :: row in result ==> row in rows
    requires forall k :: KeyCount(result, k) == Min(KeyCount(rows, k), multiset(keys)[k])
    ensures multiset(result) == multiset(WithPartner(rows, keys))
  {
    forall row | row in WithPartner(rows, keys) ensures row in rows {
      PartnerIsRow(rows, keys, row);
    }
    forall k ensures KeyCount(result, k) == KeyCount(WithPartner(rows, keys), k) {
      PartnerCount(rows, keys, k);
      DistinctCount(rows, k);
      assert k in keys <==> multiset(keys)[k] > 0;
    }
    SameBags(rows, result, WithPartner(rows, keys));
  }

  lemma ReturnedRowIsStored<V>(c: Config<V>, s: SemiJoin.State, schedule: seq<nat>, row: Row<V>)
    requires SemiJoin.Initial(c, s) && ValidSchedule(schedule, |s.probes|)
    requires row in SemiResult(c.data, SemiJoin.Run(c, s, schedule).probes)
    ensures row in Stored(c.built, c.data)
  {
    var end := SemiJoin.Run(c, s, schedule);
    SemiJoin.InitialInv(c, s);
    SemiJoin.RunKeepsInv(c, s, schedule);
    forall p | 0 <= p < |end.probes| && ResultOf(end.probes[p]).Some?
      ensures ResultOf(end.probes[p]).value < |c.data| && Filled(c.built[ResultOf(end.probes[p]).value])
    {
      assert SemiJoin.ProbeOk(c, end, p);
    }
    ResultIsStored(c, end.probes, row);
  }

  // ---------------------------------------------------------------------------------------------
  // Outer joins
  // ---------------------------------------------------------------------------------------------

  /**
   * The preserved side of the outer join end to end: of each materialised key that some probe has, the iterator leaves out one
   * row, and of any other key none, whatever the interleavings of build and probes.
   */
  lemma ParallelOuterJoinCounts<V(!new)>(
      c: AtomicBuild.Config, start: AtomicBuild.State<V>, materialised: seq<seq<seq<Row<V>>>>, building: seq<nat>,
      s: OuterJoin.State, schedule: seq<nat>, k: Key)
    requires c.tagOf == OuterTag && Built(c, start, materialised, building)
    requires OuterJoin.Initial(Finished(c, AtomicBuild.Run(c, start, building)), s) && ValidSchedule(schedule, |s.probes|)
    requires OuterJoin.AllDone(OuterJoin.Run(Finished(c, AtomicBuild.Run(c, start, building)), s, schedule))
    ensures var table, rows := Finished(c, AtomicBuild.Run(c, start, building)), AtomicBuild.MaterialisedRows(materialised);
      KeyCount(StoredWhere(OuterJoin.Run(table, s, schedule).tags, table.data, Partnerless), k)
      + (if k in ProbeKeys(s.probes) && KeyCount(rows, k) > 0 then 1 else 0)
      == KeyCount(rows, k)
  {
    var table := Finished(c, AtomicBuild.Run(c, start, building));
    AtomicBuild.BuildIsComplete(c, start, materialised, building);
    OuterJoin.OuterScanCounts(table, s, schedule, AtomicBuild.MaterialisedRows(materialised), k);
  }

  // ---------------------------------------------------------------------------------------------
  // Scanning a table of plain tags
  // ---------------------------------------------------------------------------------------------

  /** A plain tag has a bit of the hash where an outer tag has its mark. */
  lemma PlainTagLooksMarked(h: Hash)
    ensures Partnerless(TargetTag(h)) <==> !Marked(TopByte(h))
  {
  }

  lemma {:induction false} PlainScanCount<V>(hash: Key -> Hash, tags: seq<bv8>, data: seq<Row<V>>, row: Row<V>)
    requires |tags| == |data| && forall i :: 0 <= i < |tags| && Filled(tags[i]) ==> tags[i] == TargetTag(hash(data[i].key))
    ensures multiset(StoredWhere(tags, data, Partnerless))[row]
         == if Marked(TopByte(hash(row.key))) then 0 else multiset(Stored(tags, data))[row]
  {
    if tags != [] {
      PlainScanCount(hash, tags[1..], data[1..], row);
      if Filled(tags[0]) {
        PlainTagLooksMarked(hash(data[0].key));
        assert [data[0]] + Stored(tags[1..], data[1..]) == Stored(tags, data);
      }
    }
  }

  /** The mark bit of the hash tells the rows without a partner from the others, by chance. */
  ghost predicate HashTellsPartners<V>(hash: Key -> Hash, rows: seq<Row<V>>, keys: seq<Key>) {
    forall row :: row in rows ==> (Marked(TopByte(hash(row.key))) <==> row.key in keys)
  }

  lemma PlainScanIff<V(!new)>(c: Config<V>, rows: seq<Row<V>>, keys: seq<Key>)
    requires Table(c.hash, c.mask, TargetTag, c.built, c.data) && multiset(Stored(c.built, c.data)) == multiset(rows)
    ensures multiset(StoredWhere(c.built, c.data, Partnerless)) == multiset(WithoutPartner(rows, keys))
       <==> HashTellsPartners(c.hash, rows, keys)
  {
    forall i | 0 <= i < |c.built| && Filled(c.built[i]) ensures c.built[i] == TargetTag(c.hash(c.data[i].key)) {
      assert SlotInChain(c.hash, c.mask, TargetTag, c.built, c.data, i);
    }
    var scan, wanted := multiset(StoredWhere(c.built, c.data, Partnerless)), multiset(WithoutPartner(rows, keys));
    forall row: Row<V>
      ensures scan[row] == if Marked(TopByte(c.hash(row.key))) then 0 else multiset(rows)[row]
      ensures wanted[row] == if row.key in keys then 0 else multiset(rows)[row]
    {
      PlainScanCount(c.hash, c.built, c.data, row);
      FilterCount(rows, keys, row);
    }
    CountsTellPartners(c.hash, rows, keys, scan, wanted);
  }

  lemma CountsTellPartners<V(!new)>(hash: Key -> Hash, rows: seq<Row<V>>, keys: seq<Key>, scan: multiset<Row<V>>,
                                    wanted: multiset<Row<V>>)
    requires forall row: Row<V> :: scan[row] == if Marked(TopByte(hash(row.key))) then 0 else multiset(rows)[row]
    requires forall row: Row<V> :: wanted[row] == if row.key in keys then 0 else multiset(rows)[row]
    ensures scan == wanted <==> HashTellsPartners(hash, rows, keys)
  {
    if scan == wanted {
      forall row | row in rows ensures Marked(TopByte(hash(row.key))) <==> row.key in keys {
        assert multiset(rows)[row] > 0;
        assert scan[row] == wanted[row];
      }
    }
    if HashTellsPartners(hash, rows, keys) {
      forall row: Row<V> ensures scan[row] == wanted[row] {
        assert row in rows <==> multiset(rows)[row] > 0;
      }
    }
  }

  /**
   * The left outer join as it is planned: it builds with plain tags and probes with plain lookups, which mark nothing. The
   * iterator then yields the materialised rows without a partner exactly if the hashes happen to tell them from the others.
   */
  lemma LeftOuterJoinIff<V(!new)>(c: AtomicBuild.Config, start: AtomicBuild.State<V>, materialised: seq<seq<seq<Row<V>>>>,
                                  building: seq<nat>, keys: seq<Key>)
    requires c.tagOf == TargetTag && Built(c, start, materialised, building)
    ensures var end := AtomicBuild.Run(c, start, building);
      var rows := AtomicBuild.MaterialisedRows(materialised);
      multiset(StoredWhere(end.tags, end.data, Partnerless)) == multiset(WithoutPartner(rows, keys))
      <==> HashTellsPartners(c.hash, rows, keys)
  {
    AtomicBuild.BuildIsComplete(c, start, materialised, building);
    PlainScanIff(Finished(c, AtomicBuild.Run(c, start, building)), AtomicBuild.MaterialisedRows(materialised), keys);
  }
}
