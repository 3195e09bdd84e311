/**
 * The multi-threaded build phase of a join: workers drain the read handles of all tuple materialisers chunk by chunk
 * and insert every tuple into one shared hash table. Every atomic action of a worker is one step, so that a
 * schedule (a sequence of worker numbers) describes one interleaving.
 */
module AtomicBuild {
  import opened Hashing
  import opened ProbeChain
  import opened Bags
  import opened Schedules

  /** What a worker does next inside an insert. */
  datatype Pc<+V> =
    | Idle
    | Load(row: Row<V>, idx: nat)
    | Cas(row: Row<V>, idx: nat, seen: bv8)
    | Write(row: Row<V>, idx: nat)

  /** A shared read handle: the chunks of one materialiser and the atomic position of the next one to hand out. */
  datatype Handle<+V> = Handle(chunks: seq<seq<Row<V>>>, offset: nat)

  /** A worker: the handle it is draining, the rest of the chunk it pulled, and its place in the current insert. */
  datatype Worker<+V> = Worker(handle: nat, todo: seq<Row<V>>, pc: Pc<V>)

  /** Auxiliary history of a slot: nobody claimed it, `writer` claimed it for `row`, or `row` has been copied in. */
  datatype Claim<+V> = Free | Claimed(row: Row<V>, writer: nat) | Written(row: Row<V>)

  datatype State<+V> = State(
    tags: seq<bv8>,
    data: seq<Row<V>>,
    claims: seq<Claim<V>>,
    handles: seq<Handle<V>>,
    workers: seq<Worker<V>>)

  /** The fixed parameters: the hash function, the last slot index, and the tag an insert writes. */
  datatype Config = Config(hash: Key -> Hash, mask: nat, tagOf: Hash -> bv8)

  // ---------------------------------------------------------------------------------------------
  // Steps
  // ---------------------------------------------------------------------------------------------

  ghost predicate Shape<V>(c: Config, s: State<V>) {
    && |s.tags| == |s.data| == |s.claims| == c.mask + 1
    && forall w :: 0 <= w < |s.workers| ==> s.workers[w].pc.Idle? || s.workers[w].pc.idx <= c.mask
  }

  predicate Finished<V>(s: State<V>, w: nat)
    requires w < |s.workers|
  {
    var me := s.workers[w];
    me.pc.Idle? && me.todo == [] && me.handle >= |s.handles|
  }

  function Become<V>(s: State<V>, w: nat, me: Worker<V>): State<V>
    requires w < |s.workers|
  {
    s.(workers := s.workers[w := me])
  }

  /** Pull a chunk; an exhausted handle makes the worker move on to the next one. */
  function Pull<V>(s: State<V>, w: nat): State<V>
    requires w < |s.workers| && s.workers[w].handle < |s.handles|
  {
    var me := s.workers[w];
    var h := s.handles[me.handle];
    var s' := s.(handles := s.handles[me.handle := h.(offset := h.offset + 1)]);
    if h.offset >= |h.chunks| then
      Become(s', w, me.(handle := me.handle + 1))
    else
      Become(s', w, me.(todo := h.chunks[h.offset]))
  }

  /** One atomic action of worker `w`. */
  function Step<V>(c: Config, s: State<V>, w: nat): State<V>
    requires Shape(c, s) && w < |s.workers|
  {
    var me := s.workers[w];
    match me.pc
    case Idle =>
      if me.todo != [] then
        Become(s, w, me.(todo := me.todo[1..], pc := Load(me.todo[0], Home(c.hash, c.mask, me.todo[0].key))))
      else if me.handle < |s.handles| then
        Pull(s, w)
      else
        s
    case Load(row, idx) =>
      if Filled(s.tags[idx]) then
        Become(s, w, me.(pc := Load(row, Next(idx, c.mask))))
      else
        Become(s, w, me.(pc := Cas(row, idx, s.tags[idx])))
    case Cas(row, idx, seen) =>
      if s.tags[idx] == seen then
        Become(s, w, me.(pc := Write(row, idx)))
          .(tags := s.tags[idx := c.tagOf(c.hash(row.key))], claims := s.claims[idx := Claimed(row, w)])
      else
        Become(s, w, me.(pc := Load(row, Next(idx, c.mask))))
    case Write(row, idx) =>
      Become(s, w, me.(pc := Idle)).(data := s.data[idx := row], claims := s.claims[idx := Written(row)])
  }

  // ---------------------------------------------------------------------------------------------
  // Invariant
  // ---------------------------------------------------------------------------------------------

  function ClaimWeight<V>(f: Row<V> -> nat): Claim<V> -> nat {
    (cl: Claim<V>) => if cl.Free? then 0 else f(cl.row)
  }

  /** The rows a worker has pulled but not yet claimed a slot for. */
  function PendingWeight<V>(f: Row<V> -> nat): Worker<V> -> nat {
    (me: Worker<V>) => Total(me.todo, f) + InHandWeight(f, me.pc)
  }

  function InHandWeight<V>(f: Row<V> -> nat, pc: Pc<V>): nat {
    match pc
    case Load(row, _) => f(row)
    case Cas(row, _, _) => f(row)
    case _ => 0
  }

  function ChunkWeight<V>(f: Row<V> -> nat): seq<Row<V>> -> nat {
    (chunk: seq<Row<V>>) => Total(chunk, f)
  }

  /** The rows of a handle that no worker has pulled yet. */
  function UnpulledWeight<V>(f: Row<V> -> nat): Handle<V> -> nat {
    (h: Handle<V>) => if h.offset >= |h.chunks| then 0 else Total(h.chunks[h.offset..], ChunkWeight(f))
  }

  /** The weight of all rows in the system, wherever they are. */
  function Weight<V>(s: State<V>, f: Row<V> -> nat): nat {
    Total(s.claims, ClaimWeight(f)) + Total(s.workers, PendingWeight(f)) + Total(s.handles, UnpulledWeight(f))
  }

  /** Unclaimed slots carry tag zero; claimed ones carry the tag of their row and lie on a filled probe path. */
  ghost predicate SlotOk<V>(c: Config, s: State<V>, i: nat)
    requires Shape(c, s) && i <= c.mask
  {
    match s.claims[i]
    case Free => s.tags[i] == 0
    case Claimed(row, w) =>
      && s.tags[i] == c.tagOf(c.hash(row.key))
      && PathFilled(s.tags, c.mask, Home(c.hash, c.mask, row.key), i)
      && w < |s.workers| && s.workers[w].pc == Write(row, i)
    case Written(row) =>
      && s.tags[i] == c.tagOf(c.hash(row.key))
      && PathFilled(s.tags, c.mask, Home(c.hash, c.mask, row.key), i)
      && s.data[i] == row
  }

  /** A probing worker has only passed filled slots; a writing worker owns its slot. */
  ghost predicate WorkerOk<V>(c: Config, s: State<V>, w: nat)
    requires Shape(c, s) && w < |s.workers|
  {
    var pc := s.workers[w].pc;
    && (pc.Load? || pc.Cas? ==> PathFilled(s.tags, c.mask, Home(c.hash, c.mask, pc.row.key), pc.idx))
    && (pc.Cas? ==> pc.seen == 0)
    && (pc.Write? ==> s.claims[pc.idx] == Claimed(pc.row, w))
  }

  ghost predicate FillsSlots(c: Config) {
    forall h: Hash :: Filled(c.tagOf(h))
  }

  /** The probe chains are intact and every claimed slot has exactly one owner. */
  ghost predicate Chains<V>(c: Config, s: State<V>) {
    && Shape(c, s)
    && FillsSlots(c)
    && (forall i :: 0 <= i <= c.mask ==> SlotOk(c, s, i))
    && (forall w :: 0 <= w < |s.workers| ==> WorkerOk(c, s, w))
  }

  /** `rows` lists all materialised tuples; there are fewer of them than slots, and none is lost or duplicated. */
  ghost predicate Inv<V(!new)>(c: Config, s: State<V>, rows: seq<Row<V>>) {
    && Chains(c, s)
    && (forall f: Row<V> -> nat :: Weight(s, f) == Total(rows, f))
    && |rows| <= c.mask
  }

  lemma FreeSlotExists<V(!new)>(c: Config, s: State<V>, rows: seq<Row<V>>)
    requires Inv(c, s, rows)
    ensures HasFree(s.tags)
  {
    var f := ClaimWeight(Each<Row<V>>());
    assert Weight(s, Each<Row<V>>()) == Total(rows, Each());
    TotalEach(rows);
    if forall i :: 0 <= i < |s.claims| ==> f(s.claims[i]) >= 1 {
      TotalAtLeastLength(s.claims, f);
    } else {
      var i :| 0 <= i < |s.claims| && f(s.claims[i]) < 1;
      assert SlotOk(c, s, i) && !Filled(s.tags[i]);
    }
  }

  // ---------------------------------------------------------------------------------------------
  // Every step keeps every row
  // ---------------------------------------------------------------------------------------------

  lemma PullKeepsRows<V>(s: State<V>, w: nat, f: Row<V> -> nat)
    requires w < |s.workers| && s.workers[w].handle < |s.handles|
    requires s.workers[w].pc.Idle? && s.workers[w].todo == []
    ensures Weight(Pull(s, w), f) == Weight(s, f)
  {
    var me := s.workers[w];
    var h := s.handles[me.handle];
    TotalUpdate(s.handles, UnpulledWeight(f), me.handle, h.(offset := h.offset + 1));
    TotalUpdate(s.workers, PendingWeight(f), w, Pull(s, w).workers[w]);
    if h.offset < |h.chunks| {
      var rest := h.chunks[h.offset..];
      assert rest[1..] == h.chunks[h.offset + 1..];
      assert Total(rest, ChunkWeight(f)) == Total(rest[0], f) + Total(rest[1..], ChunkWeight(f));
    }
  }

  lemma StepKeepsRows<V>(c: Config, s: State<V>, w: nat, f: Row<V> -> nat)
    requires Chains(c, s) && w < |s.workers|
    ensures Weight(Step(c, s, w), f) == Weight(s, f)
  {
    var me := s.workers[w];
    assert WorkerOk(c, s, w);
    if me.pc.Idle? && me.todo == [] {
      if me.handle < |s.handles| {
        PullKeepsRows(s, w, f);
      }
    } else {
      TotalUpdate(s.workers, PendingWeight(f), w, Step(c, s, w).workers[w]);
      if me.pc.Cas? && s.tags[me.pc.idx] == me.pc.seen {
        assert SlotOk(c, s, me.pc.idx);
        TotalUpdate(s.claims, ClaimWeight(f), me.pc.idx, Claimed(me.pc.row, w));
      } else if me.pc.Write? {
        TotalUpdate(s.claims, ClaimWeight(f), me.pc.idx, Written(me.pc.row));
      }
    }
  }

  // ---------------------------------------------------------------------------------------------
  // Every step keeps the chains
  // ---------------------------------------------------------------------------------------------

  /** Steps that leave the table alone: only the stepping worker and the read handles change. */
  lemma TableUntouched<V>(c: Config, s: State<V>, s': State<V>, w: nat)
    requires Chains(c, s) && w < |s.workers|
    requires s'.tags == s.tags && s'.data == s.data && s'.claims == s.claims
    requires |s'.workers| == |s.workers| && s'.workers == s.workers[w := s'.workers[w]]
    requires !s.workers[w].pc.Write? && !s'.workers[w].pc.Write?
    requires Shape(c, s') && WorkerOk(c, s', w)
    ensures Chains(c, s')
  {
    forall i | 0 <= i <= c.mask ensures SlotOk(c, s', i) {
      assert SlotOk(c, s, i);
    }
    forall v | 0 <= v < |s'.workers| ensures WorkerOk(c, s', v) {
      assert WorkerOk(c, s, v);
    }
  }

  lemma AdvanceKeepsChains<V>(c: Config, s: State<V>, w: nat)
    requires Chains(c, s) && HasFree(s.tags) && w < |s.workers|
    requires var pc := s.workers[w].pc; (pc.Load? || (pc.Cas? && s.tags[pc.idx] != pc.seen)) && Filled(s.tags[pc.idx])
    ensures Chains(c, Step(c, s, w))
    ensures var pc := s.workers[w].pc;
      && Step(c, s, w).workers[w].pc == Load(pc.row, Next(pc.idx, c.mask))
      && var home := Home(c.hash, c.mask, pc.row.key);
         Dist(home, Next(pc.idx, c.mask), c.mask) == Dist(home, pc.idx, c.mask) + 1
  {
    var pc := s.workers[w].pc;
    assert WorkerOk(c, s, w);
    PathAdvance(s.tags, c.mask, Home(c.hash, c.mask, pc.row.key), pc.idx);
    TableUntouched(c, s, Step(c, s, w), w);
  }

  lemma ClaimKeepsChains<V>(c: Config, s: State<V>, w: nat)
    requires Chains(c, s) && w < |s.workers|
    requires var pc := s.workers[w].pc; pc.Cas? && s.tags[pc.idx] == pc.seen
    ensures Chains(c, Step(c, s, w))
  {
    var pc := s.workers[w].pc;
    var s' := Step(c, s, w);
    assert WorkerOk(c, s, w) && SlotOk(c, s, pc.idx);
    assert Filled(s'.tags[pc.idx]);
    forall i | 0 <= i <= c.mask ensures SlotOk(c, s', i) {
      assert SlotOk(c, s, i);
    }
    forall v | 0 <= v < |s'.workers| ensures WorkerOk(c, s', v) {
      assert WorkerOk(c, s, v);
    }
  }

  lemma WriteKeepsChains<V>(c: Config, s: State<V>, w: nat)
    requires Chains(c, s) && w < |s.workers| && s.workers[w].pc.Write?
    ensures Chains(c, Step(c, s, w))
  {
    var pc := s.workers[w].pc;
    var s' := Step(c, s, w);
    assert WorkerOk(c, s, w) && SlotOk(c, s, pc.idx);
    forall i | 0 <= i <= c.mask ensures SlotOk(c, s', i) {
      assert SlotOk(c, s, i);
    }
    forall v | 0 <= v < |s'.workers| ensures WorkerOk(c, s', v) {
      assert WorkerOk(c, s, v);
    }
  }

  lemma StepKeepsChains<V>(c: Config, s: State<V>, w: nat)
    requires Chains(c, s) && HasFree(s.tags) && w < |s.workers|
    ensures Chains(c, Step(c, s, w))
  {
    var me := s.workers[w];
    assert WorkerOk(c, s, w);
    match me.pc
    case Idle =>
      if me.todo != [] || me.handle < |s.handles| {
        TableUntouched(c, s, Step(c, s, w), w);
      }
    case Load(_, idx) =>
      if Filled(s.tags[idx]) {
        AdvanceKeepsChains(c, s, w);
      } else {
        assert SlotOk(c, s, idx);
        TableUntouched(c, s, Step(c, s, w), w);
      }
    case Cas(_, idx, seen) =>
      if s.tags[idx] == seen {
        ClaimKeepsChains(c, s, w);
      } else {
        assert SlotOk(c, s, idx);
        AdvanceKeepsChains(c, s, w);
      }
    case Write(_, _) =>
      WriteKeepsChains(c, s, w);
  }

  /** Every atomic action of every worker keeps the invariant: no row is lost or duplicated and every chain stays intact. */
  lemma StepKeepsInv<V(!new)>(c: Config, s: State<V>, w: nat, rows: seq<Row<V>>)
    requires Inv(c, s, rows) && w < |s.workers|
    ensures Inv(c, Step(c, s, w), rows)
  {
    FreeSlotExists(c, s, rows);
    StepKeepsChains(c, s, w);
    forall f: Row<V> -> nat ensures Weight(Step(c, s, w), f) == Total(rows, f) {
      StepKeepsRows(c, s, w, f);
    }
  }

  // ---------------------------------------------------------------------------------------------
  // Runs
  // ---------------------------------------------------------------------------------------------

  /** The empty table and the untouched read handles, with every worker about to drain the first handle. */
  ghost predicate Initial<V>(c: Config, s: State<V>, materialised: seq<seq<seq<Row<V>>>>) {
    && Shape(c, s)
    && FillsSlots(c)
    && (forall i :: 0 <= i <= c.mask ==> s.tags[i] == 0 && s.claims[i].Free?)
    && |s.handles| == |materialised|
    && (forall h :: 0 <= h < |s.handles| ==> s.handles[h] == Handle(materialised[h], 0))
    && (forall w :: 0 <= w < |s.workers| ==> s.workers[w] == Worker(0, [], Idle))
  }

  /** All tuples of all materialisers, chunk by chunk. */
  function MaterialisedRows<V>(materialised: seq<seq<seq<Row<V>>>>): seq<Row<V>> {
    if materialised == [] then [] else Flatten(materialised[0]) + MaterialisedRows(materialised[1..])
  }

  lemma {:induction false} FlattenWeight<V>(chunks: seq<seq<Row<V>>>, f: Row<V> -> nat)
    ensures Total(chunks, ChunkWeight(f)) == Total(Flatten(chunks), f)
  {
    if chunks != [] {
      FlattenWeight(chunks[1..], f);
      TotalConcat(chunks[0], Flatten(chunks[1..]), f);
    }
  }

  lemma {:induction false} InitialHandles<V>(handles: seq<Handle<V>>, materialised: seq<seq<seq<Row<V>>>>, f: Row<V> -> nat)
    requires |handles| == |materialised|
    requires forall h :: 0 <= h < |handles| ==> handles[h] == Handle(materialised[h], 0)
    ensures Total(handles, UnpulledWeight(f)) == Total(MaterialisedRows(materialised), f)
  {
    if handles != [] {
      InitialHandles(handles[1..], materialised[1..], f);
      TotalConcat(Flatten(materialised[0]), MaterialisedRows(materialised[1..]), f);
      FlattenWeight(materialised[0], f);
      assert handles[0].chunks[0..] == materialised[0];
    }
  }

  lemma InitialInv<V(!new)>(c: Config, s: State<V>, materialised: seq<seq<seq<Row<V>>>>)
    requires Initial(c, s, materialised)
    requires |MaterialisedRows(materialised)| <= c.mask
    ensures Inv(c, s, MaterialisedRows(materialised))
  {
    forall f: Row<V> -> nat ensures Weight(s, f) == Total(MaterialisedRows(materialised), f) {
      TotalZero(s.claims, ClaimWeight(f));
      TotalZero(s.workers, PendingWeight(f));
      InitialHandles(s.handles, materialised, f);
    }
  }

  lemma StepKeepsShape<V>(c: Config, s: State<V>, w: nat)
    requires Shape(c, s) && w < |s.workers|
    ensures Shape(c, Step(c, s, w)) && |Step(c, s, w).workers| == |s.workers|
  {
    var s' := Step(c, s, w);
    assert s'.workers == s.workers[w := s'.workers[w]];
  }

  /** Execute a schedule: a sequence of worker numbers. */
  ghost function Run<V>(c: Config, s: State<V>, schedule: seq<nat>): (s': State<V>)
    requires Shape(c, s)
    requires ValidSchedule(schedule, |s.workers|)
    ensures Shape(c, s') && |s'.workers| == |s.workers|
    decreases |schedule|
  {
    if schedule == [] then s
    else
      StepKeepsShape(c, s, schedule[0]);
      Run(c, Step(c, s, schedule[0]), schedule[1..])
  }

  lemma {:induction false} RunKeepsInv<V(!new)>(c: Config, s: State<V>, schedule: seq<nat>, rows: seq<Row<V>>)
    requires Inv(c, s, rows)
    requires ValidSchedule(schedule, |s.workers|)
    ensures Inv(c, Run(c, s, schedule), rows)
    decreases |schedule|
  {
    if schedule != [] {
      StepKeepsInv(c, s, schedule[0], rows);
      StepKeepsShape(c, s, schedule[0]);
      RunKeepsInv(c, Step(c, s, schedule[0]), schedule[1..], rows);
    }
  }

  ghost predicate AllFinished<V>(s: State<V>) {
    forall w :: 0 <= w < |s.workers| ==> Finished(s, w)
  }

  /** Slots, history and data agree once nobody is inside an insert. */
  lemma {:induction false} ClaimsAreStored<V>(claims: seq<Claim<V>>, tags: seq<bv8>, data: seq<Row<V>>, f: Row<V> -> nat)
    requires |claims| == |tags| == |data|
    requires forall i :: 0 <= i < |tags| ==> claims[i] == (if Filled(tags[i]) then Written(data[i]) else Free)
    ensures Total(claims, ClaimWeight(f)) == Total(Stored(tags, data), f)
  {
    if tags != [] {
      assert claims[0] == (if Filled(tags[0]) then Written(data[0]) else Free);
      ClaimsAreStored(claims[1..], tags[1..], data[1..], f);
      TotalConcat(if Filled(tags[0]) then [data[0]] else [], Stored(tags[1..], data[1..]), f);
    }
  }

  /** A slot that is claimed but not written belongs to a worker that has not finished. */
  lemma Unfinished<V>(c: Config, s: State<V>, i: nat)
    requires Chains(c, s) && i <= c.mask && s.claims[i].Claimed?
    ensures !AllFinished(s)
  {
    assert SlotOk(c, s, i);
    assert !Finished(s, s.claims[i].writer);
  }

  lemma FinishedTable<V(!new)>(c: Config, s: State<V>, rows: seq<Row<V>>)
    requires Inv(c, s, rows) && AllFinished(s)
    ensures Table(c.hash, c.mask, c.tagOf, s.tags, s.data)
    ensures forall i :: 0 <= i <= c.mask ==> s.claims[i] == (if Filled(s.tags[i]) then Written(s.data[i]) else Free)
  {
    FreeSlotExists(c, s, rows);
    forall i | 0 <= i <= c.mask
      ensures SlotInChain(c.hash, c.mask, c.tagOf, s.tags, s.data, i)
      ensures s.claims[i] == (if Filled(s.tags[i]) then Written(s.data[i]) else Free)
    {
      assert SlotOk(c, s, i);
      if s.claims[i].Claimed? {
        Unfinished(c, s, i);
      }
    }
  }

  /** The workers that have passed a handle have exhausted it. */
  ghost predicate HandlesDrained<V>(s: State<V>) {
    forall w, h :: 0 <= w < |s.workers| && 0 <= h < s.workers[w].handle && h < |s.handles|
      ==> s.handles[h].offset >= |s.handles[h].chunks|
  }

  lemma {:induction false} RunDrainsHandles<V>(c: Config, s: State<V>, schedule: seq<nat>)
    requires Shape(c, s) && HandlesDrained(s)
    requires ValidSchedule(schedule, |s.workers|)
    ensures HandlesDrained(Run(c, s, schedule))
    decreases |schedule|
  {
    if schedule != [] {
      StepKeepsShape(c, s, schedule[0]);
      RunDrainsHandles(c, Step(c, s, schedule[0]), schedule[1..]);
    }
  }

  /**
   * Main theorem of the build phase. Take any number of workers and any interleaving of their atomic actions. When
   * all of them have finished, the table holds exactly the multiset of materialised tuples, and every probe
   * chain is intact.
   */
  lemma BuildIsComplete<V(!new)>(c: Config, s: State<V>, materialised: seq<seq<seq<Row<V>>>>, schedule: seq<nat>)
    requires Initial(c, s, materialised) && |s.workers| > 0
    requires |MaterialisedRows(materialised)| <= c.mask
    requires ValidSchedule(schedule, |s.workers|)
    requires AllFinished(Run(c, s, schedule))
    ensures var end := Run(c, s, schedule);
      && Table(c.hash, c.mask, c.tagOf, end.tags, end.data)
      && multiset(Stored(end.tags, end.data)) == multiset(MaterialisedRows(materialised))
  {
    var rows := MaterialisedRows(materialised);
    InitialInv(c, s, materialised);
    RunKeepsInv(c, s, schedule, rows);
    RunDrainsHandles(c, s, schedule);
    var end := Run(c, s, schedule);
    FinishedTable(c, end, rows);
    forall f: Row<V> -> nat ensures Total(Stored(end.tags, end.data), f) == Total(rows, f) {
      ClaimsAreStored(end.claims, end.tags, end.data, f);
      TotalZero(end.workers, PendingWeight(f)) by {
        forall w | 0 <= w < |end.workers| ensures PendingWeight(f)(end.workers[w]) == 0 {
          assert Finished(end, w);
        }
      }
      assert Finished(end, 0);
      TotalZero(end.handles, UnpulledWeight(f));
      assert Weight(end, f) == Total(rows, f);
    }
    SameWeights(Stored(end.tags, end.data), rows);
  }

  // ---------------------------------------------------------------------------------------------
  // Progress
  // ---------------------------------------------------------------------------------------------

  /** The most atomic actions one row can still cost: one to start, two per visited slot, one to copy the row. */
  function RowCost(mask: nat): nat {
    2 * mask + 4
  }

  function PcCost<V>(c: Config, pc: Pc<V>): nat {
    match pc
    case Idle => 0
    case Load(row, idx) =>
      if idx <= c.mask then 2 * (c.mask + 1 - Dist(Home(c.hash, c.mask, row.key), idx, c.mask)) + 1 else 0
    case Cas(row, idx, _) =>
      if idx <= c.mask then 2 * (c.mask + 1 - Dist(Home(c.hash, c.mask, row.key), idx, c.mask)) else 0
    case Write(_, _) => 1
  }

  function RowsCost<V>(mask: nat): Row<V> -> nat {
    (row: Row<V>) => RowCost(mask)
  }

  function ChunkCost<V>(mask: nat): seq<Row<V>> -> nat {
    (chunk: seq<Row<V>>) => 1 + Total(chunk, RowsCost(mask))
  }

  function HandleCost<V>(mask: nat): Handle<V> -> nat {
    (h: Handle<V>) => if h.offset >= |h.chunks| then 0 else Total(h.chunks[h.offset..], ChunkCost(mask))
  }

  function WorkerCost<V>(c: Config, handles: nat): Worker<V> -> nat {
    (me: Worker<V>) =>
      (if me.handle <= handles then handles - me.handle else 0) + Total(me.todo, RowsCost(c.mask)) + PcCost(c, me.pc)
  }

  /** An upper bound on the number of actions that all workers together can still take. */
  function Remaining<V>(c: Config, s: State<V>): nat {
    Total(s.workers, WorkerCost(c, |s.handles|)) + Total(s.handles, HandleCost(c.mask))
  }

  lemma PullUsesBound<V>(c: Config, s: State<V>, w: nat)
    requires w < |s.workers| && s.workers[w].handle < |s.handles|
    requires s.workers[w].pc.Idle? && s.workers[w].todo == []
    ensures Remaining(c, Pull(s, w)) < Remaining(c, s)
  {
    var me := s.workers[w];
    var h := s.handles[me.handle];
    TotalUpdate(s.workers, WorkerCost(c, |s.handles|), w, Pull(s, w).workers[w]);
    TotalUpdate(s.handles, HandleCost(c.mask), me.handle, h.(offset := h.offset + 1));
    if h.offset < |h.chunks| {
      assert h.chunks[h.offset..][1..] == h.chunks[h.offset + 1..];
    }
  }

  /** The cost of the stepping worker alone. */
  lemma WorkerUsesBound<V(!new)>(c: Config, s: State<V>, w: nat)
    requires Chains(c, s) && HasFree(s.tags) && w < |s.workers|
    requires !s.workers[w].pc.Idle? || s.workers[w].todo != []
    ensures WorkerCost(c, |s.handles|)(Step(c, s, w).workers[w]) < WorkerCost(c, |s.handles|)(s.workers[w])
  {
    var me := s.workers[w];
    assert WorkerOk(c, s, w);
    match me.pc
    case Idle =>
      assert Total(me.todo, RowsCost(c.mask)) == RowCost(c.mask) + Total(me.todo[1..], RowsCost(c.mask));
    case Load(_, idx) =>
      if Filled(s.tags[idx]) {
        AdvanceKeepsChains(c, s, w);
      }
    case Cas(_, idx, seen) =>
      if s.tags[idx] != seen {
        assert SlotOk(c, s, idx);
        AdvanceKeepsChains(c, s, w);
      }
    case Write(_, _) =>
  }

  /** Every action of an unfinished worker, a lost race included, uses up part of the bound. */
  lemma StepUsesBound<V(!new)>(c: Config, s: State<V>, w: nat, rows: seq<Row<V>>)
    requires Inv(c, s, rows) && w < |s.workers| && !Finished(s, w)
    ensures Remaining(c, Step(c, s, w)) < Remaining(c, s)
  {
    FreeSlotExists(c, s, rows);
    var me := s.workers[w];
    if me.pc.Idle? && me.todo == [] {
      PullUsesBound(c, s, w);
    } else {
      TotalUpdate(s.workers, WorkerCost(c, |s.handles|), w, Step(c, s, w).workers[w]);
      WorkerUsesBound(c, s, w);
    }
  }

  /** A schedule that only ever picks workers that still have something to do. */
  ghost predicate Busy<V>(c: Config, s: State<V>, schedule: seq<nat>)
    requires Shape(c, s)
    decreases |schedule|
  {
    schedule == [] ||
    (&& schedule[0] < |s.workers| && !Finished(s, schedule[0])
     && (StepKeepsShape(c, s, schedule[0]); Busy(c, Step(c, s, schedule[0]), schedule[1..])))
  }

  /** No schedule can keep the workers busy for longer than the bound, so every interleaving ends. */
  lemma {:induction false} BuildEnds<V(!new)>(c: Config, s: State<V>, schedule: seq<nat>, rows: seq<Row<V>>)
    requires Inv(c, s, rows) && Busy(c, s, schedule)
    ensures |schedule| <= Remaining(c, s)
    decreases |schedule|
  {
    if schedule != [] {
      StepKeepsInv(c, s, schedule[0], rows);
      StepUsesBound(c, s, schedule[0], rows);
      BuildEnds(c, Step(c, s, schedule[0]), schedule[1..], rows);
    }
  }

  /** An insert has advanced at most once per slot that is filled, whatever races it lost. */
  lemma InsertAdvances<V(!new)>(c: Config, s: State<V>, w: nat, rows: seq<Row<V>>)
    requires Inv(c, s, rows) && w < |s.workers|
    requires var pc := s.workers[w].pc; pc.Load? || pc.Cas?
    ensures var pc := s.workers[w].pc;
      Dist(Home(c.hash, c.mask, pc.row.key), pc.idx, c.mask) <= |Slots(s.tags)|
  {
    var pc := s.workers[w].pc;
    assert WorkerOk(c, s, w);
    AdvancesAtMostFilled(s.tags, c.mask, Home(c.hash, c.mask, pc.row.key), pc.idx);
  }
}
