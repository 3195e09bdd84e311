/**
 * The merge phase with all workers at work. Each of them walks over the local tables, slot by slot and then addition by
 * addition, and any of them may take the next step. Whatever the interleaving, all targets come out as if each worker had
 * been alone.
 */
module MergeInterleaving {
  import opened Hashing
  import opened Bags
  import opened SharedTable
  import opened VectorizedAggregation
  import opened GroupBy
  import opened AggregationMerger
  import opened ParallelAggregation
  import opened Schedules

  /**
   * Where a merge stands: visiting slot `at` of the local table and collecting its rows, or adding up collected row `at`.
   * The pointers of the first `stale` rows are stale.
   */
  datatype Phase<V> = Collecting(at: nat, rows: seq<Row<V>>, stale: nat) | Adding(at: nat, rows: seq<Row<V>>, stale: nat)

  /** A worker in the merge phase: its target, and the local table it merges. */
  datatype Merging<V> = Merging(groups: map<Key, V>, fill: nat, next: nat, phase: Phase<V>)

  /** Visits one slot. A row of another worker is skipped, for an own row a group and a pointer are collected. */
  function Visit<V>(t: Frozen<V>, zero: V, id: nat, total: nat, me: Merging<V>): Merging<V>
    requires t.WellFormed() && total > 0 && me.phase.Collecting? && me.phase.at < |t.tags|
  {
    var Collecting(at, rows, stale) := me.phase;
    if Filled(t.tags[at]) && Mine(t.hash, id, total, t.data[at].key) then
      var key, grew := t.data[at].key, |me.groups| >= me.fill;
      Merging(if key in me.groups then me.groups else me.groups[key := zero], if grew then 2 * me.fill else me.fill, me.next,
              Collecting(at + 1, rows + [t.data[at]], if grew then |rows| else stale))
    else me.(phase := Collecting(at + 1, rows, stale))
  }

  /** Adds one row to its group, unless its pointer is stale. */
  function AddRow<V>(zero: V, add: (V, V) -> V, me: Merging<V>): Merging<V>
    requires me.phase.Adding? && me.phase.at < |me.phase.rows|
  {
    var Adding(at, rows, stale) := me.phase;
    me.(phase := Adding(at + 1, rows, stale), groups := if at < stale then me.groups else Bump(me.groups, zero, add, rows[at]))
  }

  predicate AtEnd<V>(me: Merging<V>) {
    me.phase.Adding? && me.phase.at >= |me.phase.rows|
  }

  /** One step within the merge of a local table. */
  function StepInTable<V>(t: Frozen<V>, zero: V, add: (V, V) -> V, id: nat, total: nat, me: Merging<V>): Merging<V>
    requires t.WellFormed() && total > 0 && !AtEnd(me)
  {
    match me.phase
    case Collecting(at, rows, stale) =>
      if at < |t.tags| then Visit(t, zero, id, total, me) else me.(phase := Adding(0, rows, stale))
    case Adding(_, _, _) => AddRow(zero, add, me)
  }

  /** One step of a worker on its own target. */
  function Step<V>(tables: seq<Frozen<V>>, zero: V, add: (V, V) -> V, id: nat, total: nat, me: Merging<V>): Merging<V>
    requires AllWellFormed(tables) && total > 0
  {
    if me.next >= |tables| then me
    else if AtEnd(me) then Merging(me.groups, me.fill, me.next + 1, Collecting(0, [], 0))
    else StepInTable(tables[me.next], zero, add, id, total, me)
  }

  /** An arbitrary interleaving of the workers. */
  function Run<V>(tables: seq<Frozen<V>>, zero: V, add: (V, V) -> V, ws: seq<Merging<V>>, schedule: seq<nat>)
    : (ws': seq<Merging<V>>)
    requires AllWellFormed(tables) && ValidSchedule(schedule, |ws|)
    ensures |ws'| == |ws|
  {
    if schedule == [] then ws
    else
      var n := |schedule| - 1;
      var before, w := Run(tables, zero, add, ws, schedule[..n]), schedule[n];
      before[w := Step(tables, zero, add, w, |ws|, before[w])]
  }

  // ---------------------------------------------------------------------------------------------
  // What a worker has done so far
  // ---------------------------------------------------------------------------------------------

  /** In the middle of merging a local table into a target that held `m` with fill limit `limit`. */
  ghost predicate InMerge<V>(m: map<Key, V>, zero: V, add: (V, V) -> V, limit: nat, t: Frozen<V>, id: nat, total: nat,
                             me: Merging<V>)
    requires t.WellFormed() && total > 0
  {
    match me.phase
    case Collecting(at, rows, stale) =>
      && at <= |t.tags| && rows == Partition(t.hash, id, total, t.tags, t.data, at)
      && me.groups == WithGroups(m, zero, KeysOf(rows))
      && me.fill == FillAfter(m, zero, KeysOf(rows), |rows|, limit)
      && stale == StaleRows(m, zero, rows, limit)
    case Adding(at, rows, stale) =>
      && rows == t.Share(id, total) && at <= |rows| && stale == StaleRows(m, zero, rows, limit)
      && me.groups == MergedSoFar(WithGroups(m, zero, KeysOf(rows)), zero, add, rows, stale, at)
      && me.fill == FillOf(m, zero, rows, limit)
  }

  lemma MergeBegins<V>(m: map<Key, V>, zero: V, add: (V, V) -> V, limit: nat, t: Frozen<V>, id: nat, total: nat, next: nat)
    requires t.WellFormed() && total > 0
    ensures InMerge(m, zero, add, limit, t, id, total, Merging(m, limit, next, Collecting(0, [], 0)))
  {
    var none: seq<Row<V>> := [];
    assert KeysOf(none) == [];
  }

  lemma VisitKeeps<V>(m: map<Key, V>, zero: V, add: (V, V) -> V, limit: nat, t: Frozen<V>, id: nat, total: nat, me: Merging<V>)
    requires t.WellFormed() && total > 0 && me.phase.Collecting? && me.phase.at < |t.tags|
    requires InMerge(m, zero, add, limit, t, id, total, me)
    ensures InMerge(m, zero, add, limit, t, id, total, Visit(t, zero, id, total, me))
  {
    var Collecting(at, rows, stale) := me.phase;
    if Filled(t.tags[at]) && Mine(t.hash, id, total, t.data[at].key) {
      OwnRow(m, zero, add, limit, t, id, total, me);
    } else {
      assert Visit(t, zero, id, total, me) == me.(phase := Collecting(at + 1, rows, stale));
    }
  }

  lemma OwnRow<V>(m: map<Key, V>, zero: V, add: (V, V) -> V, limit: nat, t: Frozen<V>, id: nat, total: nat, me: Merging<V>)
    requires t.WellFormed() && total > 0 && me.phase.Collecting? && me.phase.at < |t.tags|
    requires InMerge(m, zero, add, limit, t, id, total, me)
    requires Filled(t.tags[me.phase.at]) && Mine(t.hash, id, total, t.data[me.phase.at].key)
    ensures InMerge(m, zero, add, limit, t, id, total, Visit(t, zero, id, total, me))
  {
    var Collecting(at, rows, stale) := me.phase;
    var me' := Visit(t, zero, id, total, me);
    assert me'.phase.at == at + 1 && me'.phase.rows == rows + [t.data[at]];
    RowCollected(m, zero, limit, rows, t.data[at], me.groups, me.fill, stale);
    assert me'.groups == WithGroups(m, zero, KeysOf(me'.phase.rows));
    assert me'.fill == FillAfter(m, zero, KeysOf(me'.phase.rows), |me'.phase.rows|, limit);
    assert me'.phase.stale == StaleRows(m, zero, me'.phase.rows, limit);
  }

  lemma RowCollected<V>(m: map<Key, V>, zero: V, limit: nat, rows: seq<Row<V>>, row: Row<V>, groups: map<Key, V>, fill: nat,
                        stale: nat)
    requires groups == WithGroups(m, zero, KeysOf(rows)) && fill == FillAfter(m, zero, KeysOf(rows), |rows|, limit)
    requires stale == StaleRows(m, zero, rows, limit)
    ensures WithGroups(m, zero, KeysOf(rows + [row])) == if row.key in groups then groups else groups[row.key := zero]
    ensures FillAfter(m, zero, KeysOf(rows + [row]), |rows| + 1, limit) == if |groups| >= fill then 2 * fill else fill
    ensures StaleRows(m, zero, rows + [row], limit) == if |groups| >= fill then |rows| else stale
  {
    ProgressStep(m, zero, rows, row, limit);
  }

  lemma AdditionsBegin<V>(m: map<Key, V>, zero: V, add: (V, V) -> V, limit: nat, t: Frozen<V>, id: nat, total: nat, me: Merging<V>)
    requires t.WellFormed() && total > 0 && me.phase.Collecting? && me.phase.at >= |t.tags|
    requires InMerge(m, zero, add, limit, t, id, total, me)
    ensures InMerge(m, zero, add, limit, t, id, total, me.(phase := Adding(0, me.phase.rows, me.phase.stale)))
  {
  }

  lemma AdditionKeeps<V>(m: map<Key, V>, zero: V, add: (V, V) -> V, limit: nat, t: Frozen<V>, id: nat, total: nat, me: Merging<V>)
    requires t.WellFormed() && total > 0 && me.phase.Adding? && me.phase.at < |me.phase.rows|
    requires InMerge(m, zero, add, limit, t, id, total, me)
    ensures InMerge(m, zero, add, limit, t, id, total, AddRow(zero, add, me))
  {
    var Adding(at, rows, stale) := me.phase;
    MergedOne(WithGroups(m, zero, KeysOf(rows)), zero, add, rows, stale, at);
  }

  lemma StepKeepsMerge<V>(m: map<Key, V>, zero: V, add: (V, V) -> V, limit: nat, t: Frozen<V>, id: nat, total: nat, me: Merging<V>)
    requires t.WellFormed() && total > 0 && !AtEnd(me) && InMerge(m, zero, add, limit, t, id, total, me)
    ensures InMerge(m, zero, add, limit, t, id, total, StepInTable(t, zero, add, id, total, me))
  {
    if me.phase.Adding? {
      AdditionKeeps(m, zero, add, limit, t, id, total, me);
    } else if me.phase.at < |t.tags| {
      VisitKeeps(m, zero, add, limit, t, id, total, me);
    } else {
      AdditionsBegin(m, zero, add, limit, t, id, total, me);
    }
  }

  lemma MergeEnds<V>(m: map<Key, V>, zero: V, add: (V, V) -> V, limit: nat, t: Frozen<V>, id: nat, total: nat, me: Merging<V>)
    requires t.WellFormed() && total > 0 && AtEnd(me) && InMerge(m, zero, add, limit, t, id, total, me)
    ensures me.groups == MergeOutcome(m, zero, add, t.Share(id, total), limit)
    ensures me.fill == FillOf(m, zero, t.Share(id, total), limit)
  {
    var Adding(at, rows, stale) := me.phase;
    assert rows[stale..|rows|] == rows[stale..];
  }

  /** The worker is where its own merges lead, whatever the others do. `parts` are its shares of the local tables. */
  ghost predicate OnItsOwn<V>(tables: seq<Frozen<V>>, parts: seq<seq<Row<V>>>, zero: V, add: (V, V) -> V, limit: nat, id: nat,
                              total: nat, me: Merging<V>)
    requires AllWellFormed(tables) && total > 0 && |parts| == |tables|
  {
    && me.next <= |tables|
    && if me.next == |tables| then me.groups == MergedGroups(map[], zero, add, parts, me.next, limit)
       else
         InMerge(MergedGroups(map[], zero, add, parts, me.next, limit), zero, add,
                 MergedFill(map[], zero, add, parts, me.next, limit), tables[me.next], id, total, me)
  }

  ghost predicate AreShares<V>(tables: seq<Frozen<V>>, parts: seq<seq<Row<V>>>, id: nat, total: nat)
    requires AllWellFormed(tables) && total > 0
  {
    |parts| == |tables| && forall i :: 0 <= i < |parts| ==> parts[i] == tables[i].Share(id, total)
  }

  lemma StepOnItsOwn<V>(tables: seq<Frozen<V>>, parts: seq<seq<Row<V>>>, zero: V, add: (V, V) -> V, limit: nat, id: nat,
                        total: nat, me: Merging<V>)
    requires AllWellFormed(tables) && total > 0 && AreShares(tables, parts, id, total)
    requires OnItsOwn(tables, parts, zero, add, limit, id, total, me)
    ensures OnItsOwn(tables, parts, zero, add, limit, id, total, Step(tables, zero, add, id, total, me))
  {
    if me.next < |tables| {
      var m, fill := MergedGroups(map[], zero, add, parts, me.next, limit), MergedFill(map[], zero, add, parts, me.next, limit);
      var me' := Step(tables, zero, add, id, total, me);
      if AtEnd(me) {
        MergeEnds(m, zero, add, fill, tables[me.next], id, total, me);
        NextTable(tables, parts, zero, add, limit, id, total, me);
        assert me' == Merging(me.groups, me.fill, me.next + 1, Collecting(0, [], 0));
      } else {
        StepKeepsMerge(m, zero, add, fill, tables[me.next], id, total, me);
        assert me' == StepInTable(tables[me.next], zero, add, id, total, me);
        assert me'.next == me.next;
        assert InMerge(m, zero, add, fill, tables[me.next], id, total, me');
      }
      assert OnItsOwn(tables, parts, zero, add, limit, id, total, me');
    }
  }

  lemma NextTable<V>(tables: seq<Frozen<V>>, parts: seq<seq<Row<V>>>, zero: V, add: (V, V) -> V, limit: nat, id: nat, total: nat,
                     me: Merging<V>)
    requires AllWellFormed(tables) && total > 0 && me.next < |tables| == |parts|
    requires me.groups == MergeOutcome(MergedGroups(map[], zero, add, parts, me.next, limit), zero, add, parts[me.next],
                                       MergedFill(map[], zero, add, parts, me.next, limit))
    requires me.fill == FillOf(MergedGroups(map[], zero, add, parts, me.next, limit), zero, parts[me.next],
                               MergedFill(map[], zero, add, parts, me.next, limit))
    ensures OnItsOwn(tables, parts, zero, add, limit, id, total, Merging(me.groups, me.fill, me.next + 1, Collecting(0, [], 0)))
  {
    NextMerge(map[], zero, add, parts, me.next, limit);
    if me.next + 1 < |tables| {
      MergeBegins(me.groups, zero, add, me.fill, tables[me.next + 1], id, total, me.next + 1);
    }
  }

  ghost predicate Start<V>(ws: seq<Merging<V>>, limit: nat) {
    |ws| > 0 && forall w :: 0 <= w < |ws| ==> ws[w] == Merging(map[], limit, 0, Collecting(0, [], 0))
  }

  lemma {:induction false} RunsDoNotInterfere<V>(tables: seq<Frozen<V>>, zero: V, add: (V, V) -> V, limit: nat,
                                                 ws: seq<Merging<V>>, schedule: seq<nat>, w: nat)
    requires AllWellFormed(tables) && Start(ws, limit) && w < |ws| && ValidSchedule(schedule, |ws|)
    ensures OnItsOwn(tables, Shares(tables, w, |ws|), zero, add, limit, w, |ws|, Run(tables, zero, add, ws, schedule)[w])
  {
    if schedule == [] {
      if tables != [] {
        var none: map<Key, V> := map[];
        MergeBegins(none, zero, add, limit, tables[0], w, |ws|, 0);
      }
    } else {
      var n := |schedule| - 1;
      RunsDoNotInterfere(tables, zero, add, limit, ws, schedule[..n], w);
      StepOnItsOwn(tables, Shares(tables, w, |ws|), zero, add, limit, w, |ws|, Run(tables, zero, add, ws, schedule[..n])[w]);
    }
  }

  ghost predicate AllMerged<V>(tables: seq<Frozen<V>>, ws: seq<Merging<V>>) {
    forall v :: 0 <= v < |ws| ==> ws[v].next >= |tables|
  }

  /** Under every interleaving, the target of a worker ends up as if it had merged alone. */
  lemma MergedAsAlone<V>(tables: seq<Frozen<V>>, zero: V, add: (V, V) -> V, limit: nat, ws: seq<Merging<V>>, schedule: seq<nat>,
                         w: nat)
    requires AllWellFormed(tables) && Start(ws, limit) && w < |ws| && ValidSchedule(schedule, |ws|)
    requires AllMerged(tables, Run(tables, zero, add, ws, schedule))
    ensures Run(tables, zero, add, ws, schedule)[w].groups == WorkerResult(tables, zero, add, w, |ws|, limit)
  {
    RunsDoNotInterfere(tables, zero, add, limit, ws, schedule, w);
  }

  /**
   * Main theorem: under every interleaving of the workers' steps, once all of them have merged all local tables, a key lies in
   * the target of exactly one of them, with the sum over all rows.
   */
  lemma MergedOnceUnderAnySchedule<V(!new)>(tables: seq<Frozen<V>>, hash: Key -> Hash, zero: V, add: (V, V) -> V,
                                            inputs: seq<seq<Row<V>>>, rows: seq<Row<V>>, limit: nat, ws: seq<Merging<V>>,
                                            schedule: seq<nat>, k: Key, w: nat)
    requires LocalAggregates(tables, hash, zero, add, inputs) && Monoid(zero, add) && Commutative(add)
    requires multiset(Joined(inputs, |inputs|)) == multiset(rows)
    requires Start(ws, limit) && 0 < limit && ValidSchedule(schedule, |ws|)
    requires AllMerged(tables, Run(tables, zero, add, ws, schedule))
    requires w < |ws| && WorkerHasRoom(tables, zero, add, w, |ws|, limit)
    ensures var end := Run(tables, zero, add, ws, schedule);
      && (k in end[w].groups <==> HasKey(rows, k) && w == hash(k) % |ws|)
      && (k in end[w].groups ==> end[w].groups[k] == GroupSum(zero, add, rows, k))
  {
    MergedAsAlone(tables, zero, add, limit, ws, schedule, w);
    ParallelAggregationIsGroupBy(tables, hash, zero, add, inputs, rows, w, |ws|, limit, k);
  }

  // ---------------------------------------------------------------------------------------------
  // Progress
  // ---------------------------------------------------------------------------------------------

  /** A bound for the steps within one local table, and within all tables from number `next` on. */
  function StepsInTable<V>(t: Frozen<V>): nat {
    2 * |t.tags| + 2
  }

  function StepsFrom<V>(tables: seq<Frozen<V>>, next: nat): nat
    decreases |tables| - next
  {
    if next >= |tables| then 0 else StepsInTable(tables[next]) + StepsFrom(tables, next + 1)
  }

  function StepsLeft<V>(tables: seq<Frozen<V>>): Merging<V> -> nat {
    (me: Merging<V>) =>
      if me.next >= |tables| then 0
      else
        StepsFrom(tables, me.next + 1)
        + match me.phase
          case Collecting(at, rows, _) => if at <= |tables[me.next].tags| then 2 * (|tables[me.next].tags| - at) + |rows| + 2 else 0
          case Adding(at, rows, _) => if at <= |rows| then |rows| - at + 1 else 0
  }

  lemma StepUsesBound<V>(tables: seq<Frozen<V>>, zero: V, add: (V, V) -> V, id: nat, total: nat, me: Merging<V>)
    requires AllWellFormed(tables) && total > 0 && me.next < |tables|
    requires me.phase.at <= if me.phase.Collecting? then |tables[me.next].tags| else |me.phase.rows|
    ensures StepsLeft(tables)(Step(tables, zero, add, id, total, me)) < StepsLeft(tables)(me)
  {
  }

  /** A schedule that only ever picks workers with tables left. */
  ghost predicate Busy<V>(tables: seq<Frozen<V>>, zero: V, add: (V, V) -> V, ws: seq<Merging<V>>, schedule: seq<nat>)
    requires AllWellFormed(tables) && ValidSchedule(schedule, |ws|)
  {
    schedule != [] ==>
      var n := |schedule| - 1;
      Busy(tables, zero, add, ws, schedule[..n]) && Run(tables, zero, add, ws, schedule[..n])[schedule[n]].next < |tables|
  }

  /** Under every interleaving the workers are through after a bounded number of steps. */
  lemma {:induction false} MergesEnd<V>(tables: seq<Frozen<V>>, zero: V, add: (V, V) -> V, limit: nat, ws: seq<Merging<V>>,
                                        schedule: seq<nat>)
    requires AllWellFormed(tables) && Start(ws, limit) && ValidSchedule(schedule, |ws|) && Busy(tables, zero, add, ws, schedule)
    ensures |schedule| + Total(Run(tables, zero, add, ws, schedule), StepsLeft(tables)) <= Total(ws, StepsLeft(tables))
  {
    if schedule != [] {
      var n := |schedule| - 1;
      var before, w := Run(tables, zero, add, ws, schedule[..n]), schedule[n];
      MergesEnd(tables, zero, add, limit, ws, schedule[..n]);
      RunsDoNotInterfere(tables, zero, add, limit, ws, schedule[..n], w);
      StepUsesBound(tables, zero, add, w, |ws|, before[w]);
      TotalUpdate(before, StepsLeft(tables), w, Step(tables, zero, add, w, |ws|, before[w]));
    }
  }
}
