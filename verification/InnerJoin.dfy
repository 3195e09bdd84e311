/** The probe side of a primary key join: hash lookups plus the null filter against the relational definition. */
module InnerJoin {
  import opened Options
  import opened Hashing
  import opened ProbeChain
  import opened AtomicTable
  import opened Relational
  import AtomicBuild
  import Schedules

  /** All pairs of a build row with one probe row that agree on the key, by comparing with every build row. */
  function Matches<B, P>(build: seq<Row<B>>, probe: Row<P>): seq<(Row<B>, Row<P>)> {
    if build == [] then []
    else (if build[0].key == probe.key then [(build[0], probe)] else []) + Matches(build[1..], probe)
  }

  /** The relational inner join, by nested loops. */
  function NestedLoopJoin<B, P>(build: seq<Row<B>>, probes: seq<Row<P>>): seq<(Row<B>, Row<P>)> {
    if probes == [] then [] else Matches(build, probes[0]) + NestedLoopJoin(build, probes[1..])
  }

  lemma {:induction false} NoMatch<B, P>(build: seq<Row<B>>, probe: Row<P>)
    requires forall row :: row in build ==> row.key != probe.key
    ensures Matches(build, probe) == []
  {
    if build != [] {
      NoMatch(build[1..], probe);
    }
  }

  lemma {:induction false} OneMatch<B, P>(build: seq<Row<B>>, probe: Row<P>, row: Row<B>)
    requires DistinctKeys(build) && row in build && row.key == probe.key
    ensures Matches(build, probe) == [(row, probe)]
  {
    if build[0] == row {
      forall r | r in build[1..] ensures r.key != probe.key {
        var j :| 0 <= j < |build[1..]| && build[1..][j] == r;
        assert build[j + 1] == r;
      }
      NoMatch(build[1..], probe);
    } else {
      OneMatch(build[1..], probe, row);
      var j :| 0 <= j < |build| && build[j] == row;
      assert build[0].key != build[j].key;
    }
  }

  lemma SameRows<V>(a: seq<Row<V>>, b: seq<Row<V>>)
    requires multiset(a) == multiset(b)
    ensures forall row :: row in a <==> row in b
  {
    forall row ensures row in a <==> row in b {
      assert row in a <==> row in multiset(a);
      assert row in b <==> row in multiset(b);
    }
  }

  /** The tag a plain lookup accepts. */
  function Live(h: Hash): bv8 -> bool {
    t => t == TargetTag(h)
  }

  /** What a lookup finds in the table is exactly the partner that the nested loop finds in the build relation. */
  lemma HitIsMatch<B, P>(hash: Key -> Hash, mask: nat, tags: seq<bv8>, data: seq<Row<B>>, build: seq<Row<B>>,
                         probe: Row<P>, hit: Option<nat>)
    requires Table(hash, mask, TargetTag, tags, data)
    requires multiset(Stored(tags, data)) == multiset(build) && DistinctKeys(build)
    requires IsHit(hash, mask, tags, data, Live(hash(probe.key)), probe.key, hit)
    ensures Matches(build, probe) == if hit.Some? then [(data[hit.value], probe)] else []
  {
    SameRows(Stored(tags, data), build);
    match hit
    case Some(i) =>
      StoredIff(tags, data, data[i]);
      OneMatch(build, probe, data[i]);
    case None =>
      forall row | row in build ensures row.key != probe.key {
        StoredIff(tags, data, row);
        var i :| 0 <= i < |tags| && Filled(tags[i]) && data[i] == row;
        assert SlotInChain(hash, mask, TargetTag, tags, data, i);
        assert !Answers(tags, data, Live(hash(probe.key)), probe.key, i);
      }
      NoMatch(build, probe);
  }

  /** `hits` is the pointer column that looking up every probe key produces. */
  ghost predicate PointerColumn<B, P>(hash: Key -> Hash, mask: nat, tags: seq<bv8>, data: seq<Row<B>>,
                                      probes: seq<Row<P>>, hits: seq<Option<nat>>): (ok: bool)
    requires |tags| == |data| == mask + 1
    ensures ok ==> |hits| == |probes| && forall k :: 0 <= k < |hits| && hits[k].Some? ==> hits[k].value < |data|
  {
    && |hits| == |probes|
    && forall k :: 0 <= k < |hits| ==>
         IsHit(hash, mask, tags, data, Live(hash(probes[k].key)), probes[k].key, hits[k])
  }

  /** Drop the null pointers and unpack the remaining pairs. */
  function FilterNulls<B, P>(data: seq<Row<B>>, hits: seq<Option<nat>>, probes: seq<Row<P>>): seq<(Row<B>, Row<P>)>
    requires |hits| == |probes|
    requires forall k :: 0 <= k < |hits| && hits[k].Some? ==> hits[k].value < |data|
  {
    if probes == [] then []
    else (if hits[0].Some? then [(data[hits[0].value], probes[0])] else []) + FilterNulls(data, hits[1..], probes[1..])
  }

  lemma {:induction false} PointerColumnJoins<B, P>(hash: Key -> Hash, mask: nat, tags: seq<bv8>, data: seq<Row<B>>,
                                                    build: seq<Row<B>>, probes: seq<Row<P>>, hits: seq<Option<nat>>)
    requires Table(hash, mask, TargetTag, tags, data)
    requires multiset(Stored(tags, data)) == multiset(build) && DistinctKeys(build)
    requires PointerColumn(hash, mask, tags, data, probes, hits)
    ensures FilterNulls(data, hits, probes) == NestedLoopJoin(build, probes)
  {
    if probes != [] {
      assert IsHit(hash, mask, tags, data, Live(hash(probes[0].key)), probes[0].key, hits[0]);
      HitIsMatch(hash, mask, tags, data, build, probes[0], hits[0]);
      assert PointerColumn(hash, mask, tags, data, probes[1..], hits[1..]) by {
        forall k | 0 <= k < |hits[1..]|
          ensures IsHit(hash, mask, tags, data, Live(hash(probes[1..][k].key)), probes[1..][k].key, hits[1..][k])
        {
          assert IsHit(hash, mask, tags, data, Live(hash(probes[k + 1].key)), probes[k + 1].key, hits[k + 1]);
        }
      }
      PointerColumnJoins(hash, mask, tags, data, build, probes[1..], hits[1..]);
    }
  }

  /** The vectorised lookup primitive: one lookup per row of the morsel. */
  method LookupColumn<B(!new), P>(table: AtomicHashTable<B>, probes: seq<Row<P>>) returns (hits: seq<Option<nat>>)
    requires table.Valid() && HasFree(table.tags[..])
    ensures PointerColumn(table.hash, table.modMask, table.tags[..], table.data[..], probes, hits)
  {
    hits := [];
    for k := 0 to |probes|
      invariant PointerColumn(table.hash, table.modMask, table.tags[..], table.data[..], probes[..k], hits)
    {
      var hit := table.Lookup(probes[k].key, table.hash(probes[k].key));
      hits := hits + [hit];
    }
    assert probes[..|probes|] == probes;
  }

  /** The probe pipeline over a finished table produces the nested loop join, pairs and order included. */
  method ProbePipeline<B(!new), P>(table: AtomicHashTable<B>, probes: seq<Row<P>>, ghost build: seq<Row<B>>)
    returns (out: seq<(Row<B>, Row<P>)>)
    requires table.Valid()
    requires Table(table.hash, table.modMask, TargetTag, table.tags[..], table.data[..])
    requires multiset(Stored(table.tags[..], table.data[..])) == multiset(build) && DistinctKeys(build)
    ensures out == NestedLoopJoin(build, probes)
  {
    var hits := LookupColumn(table, probes);
    PointerColumnJoins(table.hash, table.modMask, table.tags[..], table.data[..], build, probes, hits);
    out := FilterNulls(table.data[..], hits, probes);
  }

  /**
   * The parallel join end to end: materialise on any number of threads, build with any number of workers under any
   * interleaving, then probe. The result is the nested loop join of the materialised rows with the probe rows.
   */
  lemma ParallelJoinIsRelational<B(!new), P>(
      c: AtomicBuild.Config, start: AtomicBuild.State<B>, materialised: seq<seq<seq<Row<B>>>>, schedule: seq<nat>,
      probes: seq<Row<P>>, hits: seq<Option<nat>>)
    requires c.tagOf == TargetTag
    requires AtomicBuild.Initial(c, start, materialised) && |start.workers| > 0
    requires |AtomicBuild.MaterialisedRows(materialised)| <= c.mask
    requires DistinctKeys(AtomicBuild.MaterialisedRows(materialised))
    requires Schedules.ValidSchedule(schedule, |start.workers|)
    requires AtomicBuild.AllFinished(AtomicBuild.Run(c, start, schedule))
    requires var end := AtomicBuild.Run(c, start, schedule); PointerColumn(c.hash, c.mask, end.tags, end.data, probes, hits)
    ensures FilterNulls(AtomicBuild.Run(c, start, schedule).data, hits, probes)
         == NestedLoopJoin(AtomicBuild.MaterialisedRows(materialised), probes)
  {
    AtomicBuild.BuildIsComplete(c, start, materialised, schedule);
    var end := AtomicBuild.Run(c, start, schedule);
    PointerColumnJoins(c.hash, c.mask, end.tags, end.data, AtomicBuild.MaterialisedRows(materialised), probes, hits);
  }
}
