/**
 * Concurrent outer join probes: a probe that finds a partner marks it, by a load followed by a plain store. Afterwards
 * the iterator visits the rows that are still unmarked.
 */
module OuterJoin {
  import opened Options
  import opened Hashing
  import opened ProbeChain
  import opened Bags
  import opened ProbePhase
  import opened Schedules
  import opened AtomicTable
  import opened Relational

  datatype Pc = Load(idx: nat) | Store(idx: nat) | Done(result: Option<nat>)

  datatype State = State(tags: seq<bv8>, probes: seq<Probe<Pc>>)

  ghost predicate Shape<V>(c: Config<V>, s: State) {
    && |s.tags| == |c.data| == |c.built| == c.mask + 1
    && forall p :: 0 <= p < |s.probes| ==> s.probes[p].pc.Done? || s.probes[p].pc.idx <= c.mask
  }

  function Become(s: State, p: nat, pc: Pc): State
    requires p < |s.probes|
  {
    s.(probes := s.probes[p := s.probes[p].(pc := pc)])
  }

  /** One atomic action of probe `p`. */
  function Step<V>(c: Config<V>, s: State, p: nat): State
    requires Shape(c, s) && p < |s.probes|
  {
    var me := s.probes[p];
    var h := c.hash(me.key);
    match me.pc
    case Load(idx) =>
      if !Filled(s.tags[idx]) then
        Become(s, p, Done(None))
      else if OuterFingerprint(s.tags[idx]) == OuterFingerprint(TopByte(h)) && c.data[idx].key == me.key then
        Become(s, p, if s.tags[idx] != MarkedTag(h) then Store(idx) else Done(Some(idx)))
      else
        Become(s, p, Load(Next(idx, c.mask)))
    case Store(idx) =>
      Become(s, p, Done(Some(idx))).(tags := s.tags[idx := MarkedTag(h)])
    case Done(_) =>
      s
  }

  // ---------------------------------------------------------------------------------------------
  // Invariant
  // ---------------------------------------------------------------------------------------------

  ghost predicate Wanted(s: State, k: Key) {
    exists p :: 0 <= p < |s.probes| && s.probes[p].key == k
  }

  /** A slot is free for good, unmarked, or marked; only rows that some probe wants and comes to first are marked. */
  ghost predicate SlotOk<V>(c: Config<V>, s: State, i: nat)
    requires Shape(c, s) && i <= c.mask
  {
    var h := c.hash(c.data[i].key);
    if !Filled(c.built[i]) then s.tags[i] == c.built[i]
    else s.tags[i] == OuterTag(h) || (s.tags[i] == MarkedTag(h) && Wanted(s, c.data[i].key) && IsFirst(c, i))
  }

  ghost predicate NotBefore<V>(c: Config<V>, k: Key, idx: nat)
    requires |c.data| == |c.built| == c.mask + 1 && idx <= c.mask
  {
    forall j :: 0 <= j <= c.mask && Dist(HomeOf(c, k), j, c.mask) < Dist(HomeOf(c, k), idx, c.mask) ==> c.data[j].key != k
  }

  /** No slot in front of `i` on its chain has the same key. */
  ghost predicate IsFirst<V>(c: Config<V>, i: nat)
    requires |c.data| == |c.built| == c.mask + 1 && i <= c.mask
  {
    NotBefore(c, c.data[i].key, i)
  }

  ghost predicate ProbeOk<V>(c: Config<V>, s: State, p: nat)
    requires Shape(c, s) && p < |s.probes|
  {
    var me := s.probes[p];
    match me.pc
    case Load(idx) => PathFilled(c.built, c.mask, HomeOf(c, me.key), idx) && NotBefore(c, me.key, idx)
    case Store(idx) => Filled(c.built[idx]) && c.data[idx].key == me.key && IsFirst(c, idx)
    case Done(None) => forall j :: 0 <= j <= c.mask && Filled(c.built[j]) ==> c.data[j].key != me.key
    case Done(Some(i)) =>
      && i <= c.mask && Filled(c.built[i]) && c.data[i].key == me.key && IsFirst(c, i)
      && s.tags[i] == MarkedTag(c.hash(me.key))
  }

  ghost predicate Inv<V>(c: Config<V>, s: State) {
    && Shape(c, s)
    && Table(c.hash, c.mask, OuterTag, c.built, c.data)
    && (forall i :: 0 <= i <= c.mask ==> SlotOk(c, s, i))
    && (forall p :: 0 <= p < |s.probes| ==> ProbeOk(c, s, p))
  }

  lemma SlotFacts<V>(c: Config<V>, s: State, i: nat)
    requires Inv(c, s) && i <= c.mask
    ensures Filled(s.tags[i]) <==> Filled(c.built[i])
    ensures Filled(c.built[i]) ==> OuterFingerprint(s.tags[i]) == OuterFingerprint(TopByte(c.hash(c.data[i].key)))
  {
    assert SlotOk(c, s, i);
    MarkedTagKeepsFingerprint(c.hash(c.data[i].key));
  }

  lemma StepKeepsProbes<V>(c: Config<V>, s: State, p: nat)
    requires Shape(c, s) && p < |s.probes|
    ensures Shape(c, Step(c, s, p)) && SameKeys(s.probes, Step(c, s, p).probes)
  {
    assert Step(c, s, p).probes == s.probes[p := Step(c, s, p).probes[p]];
  }

  lemma WantedStays(s: State, s': State, k: Key)
    requires SameKeys(s.probes, s'.probes)
    ensures Wanted(s, k) <==> Wanted(s', k)
  {
    if p :| 0 <= p < |s.probes| && s.probes[p].key == k {
      assert s'.probes[p].key == k;
    }
    if p :| 0 <= p < |s'.probes| && s'.probes[p].key == k {
      assert s.probes[p].key == k;
    }
  }

  /** A step that leaves the tags alone keeps what is known about the other probes and about all slots. */
  lemma ProbeMoves<V>(c: Config<V>, s: State, s': State, p: nat)
    requires Inv(c, s) && p < |s.probes| && |s'.probes| == |s.probes| && s' == Become(s, p, s'.probes[p].pc)
    requires Shape(c, s') && ProbeOk(c, s', p)
    ensures Inv(c, s')
  {
    forall i | 0 <= i <= c.mask ensures SlotOk(c, s', i) {
      assert SlotOk(c, s, i);
      WantedStays(s, s', c.data[i].key);
    }
    forall q | 0 <= q < |s'.probes| ensures ProbeOk(c, s', q) {
      assert ProbeOk(c, s, q);
    }
  }

  /** Stepping over a filled slot with another key. */
  lemma AdvanceKeepsInv<V>(c: Config<V>, s: State, p: nat, idx: nat)
    requires Inv(c, s) && p < |s.probes| && s.probes[p].pc == Load(idx)
    requires Filled(c.built[idx]) && c.data[idx].key != s.probes[p].key
    ensures Inv(c, Become(s, p, Load(Next(idx, c.mask))))
    ensures var home := HomeOf(c, s.probes[p].key); Dist(home, Next(idx, c.mask), c.mask) == Dist(home, idx, c.mask) + 1
  {
    var k := s.probes[p].key;
    assert ProbeOk(c, s, p);
    PathAdvance(c.built, c.mask, HomeOf(c, k), idx);
    forall j | 0 <= j <= c.mask && Dist(HomeOf(c, k), j, c.mask) < Dist(HomeOf(c, k), Next(idx, c.mask), c.mask)
      ensures c.data[j].key != k
    {
      assert j == idx || Dist(HomeOf(c, k), j, c.mask) < Dist(HomeOf(c, k), idx, c.mask);
    }
    ProbeMoves(c, s, Become(s, p, Load(Next(idx, c.mask))), p);
  }

  /** A probe that reaches a free slot has seen every row with its key. */
  lemma ChainExhausted<V>(c: Config<V>, s: State, p: nat, idx: nat)
    requires Inv(c, s) && p < |s.probes| && s.probes[p].pc == Load(idx) && !Filled(c.built[idx])
    ensures forall j :: 0 <= j <= c.mask && Filled(c.built[j]) ==> c.data[j].key != s.probes[p].key
  {
    var k := s.probes[p].key;
    assert ProbeOk(c, s, p);
    forall j | 0 <= j <= c.mask && Filled(c.built[j]) ensures c.data[j].key != k {
      assert SlotInChain(c.hash, c.mask, OuterTag, c.built, c.data, j);
      if c.data[j].key == k {
        FreeSlotEndsChain(c.built, c.mask, HomeOf(c, k), idx, j);
      }
    }
  }

  lemma MarkKeepsInv<V>(c: Config<V>, s: State, p: nat)
    requires Inv(c, s) && p < |s.probes| && s.probes[p].pc.Store?
    ensures Inv(c, Step(c, s, p))
  {
    var s' := Step(c, s, p);
    assert ProbeOk(c, s, p);
    assert s'.probes[p].key == s.probes[p].key;
    forall i | 0 <= i <= c.mask ensures SlotOk(c, s', i) {
      assert SlotOk(c, s, i);
      WantedStays(s, s', c.data[i].key);
    }
    forall q | 0 <= q < |s'.probes| ensures ProbeOk(c, s', q) {
      assert ProbeOk(c, s, q);
    }
  }

  /** Every atomic action keeps the invariant: tags only move from unmarked to marked, and only for wanted rows. */
  lemma StepKeepsInv<V>(c: Config<V>, s: State, p: nat)
    requires Inv(c, s) && p < |s.probes|
    ensures Inv(c, Step(c, s, p))
  {
    var me := s.probes[p];
    assert ProbeOk(c, s, p);
    match me.pc
    case Load(idx) =>
      SlotFacts(c, s, idx);
      assert SlotOk(c, s, idx);
      if !Filled(s.tags[idx]) {
        ChainExhausted(c, s, p, idx);
        ProbeMoves(c, s, Step(c, s, p), p);
      } else if c.data[idx].key == me.key {
        ProbeMoves(c, s, Step(c, s, p), p);
      } else {
        AdvanceKeepsInv(c, s, p, idx);
      }
    case Store(idx) => MarkKeepsInv(c, s, p);
    case Done(_) =>
  }

  // ---------------------------------------------------------------------------------------------
  // Runs
  // ---------------------------------------------------------------------------------------------

  ghost predicate Initial<V>(c: Config<V>, s: State) {
    && Shape(c, s)
    && Table(c.hash, c.mask, OuterTag, c.built, c.data)
    && s.tags == c.built
    && (forall p :: 0 <= p < |s.probes| ==> s.probes[p].pc == Load(HomeOf(c, s.probes[p].key)))
  }

  lemma InitialInv<V>(c: Config<V>, s: State)
    requires Initial(c, s)
    ensures Inv(c, s)
  {
    forall i | 0 <= i <= c.mask ensures SlotOk(c, s, i) {
      assert SlotInChain(c.hash, c.mask, OuterTag, c.built, c.data, i);
    }
  }

  /** Execute a schedule: a sequence of probe numbers. */
  ghost function Run<V>(c: Config<V>, s: State, schedule: seq<nat>): (s': State)
    requires Shape(c, s) && ValidSchedule(schedule, |s.probes|)
    ensures Shape(c, s') && SameKeys(s.probes, s'.probes)
    decreases |schedule|
  {
    if schedule == [] then s
    else
      StepKeepsProbes(c, s, schedule[0]);
      Run(c, Step(c, s, schedule[0]), schedule[1..])
  }

  lemma {:induction false} RunKeepsInv<V>(c: Config<V>, s: State, schedule: seq<nat>)
    requires Inv(c, s) && ValidSchedule(schedule, |s.probes|)
    ensures Inv(c, Run(c, s, schedule))
    decreases |schedule|
  {
    if schedule != [] {
      StepKeepsInv(c, s, schedule[0]);
      StepKeepsProbes(c, s, schedule[0]);
      RunKeepsInv(c, Step(c, s, schedule[0]), schedule[1..]);
    }
  }

  ghost predicate AllDone(s: State) {
    forall p :: 0 <= p < |s.probes| ==> s.probes[p].pc.Done?
  }

  ghost predicate DistinctSlots<V>(built: seq<bv8>, data: seq<Row<V>>)
    requires |built| == |data|
  {
    forall i, j :: 0 <= i < j < |built| && Filled(built[i]) && Filled(built[j]) ==> data[i].key != data[j].key
  }

  lemma FirstIsUnique<V>(c: Config<V>, i: nat, j: nat)
    requires |c.data| == |c.built| == c.mask + 1 && i <= c.mask && j <= c.mask
    requires c.data[i].key == c.data[j].key && IsFirst(c, i) && IsFirst(c, j)
    ensures i == j
  {
  }

  /**
   * Once all probes are done, a filled slot is marked iff some probe wanted its key and no earlier slot on its chain has the
   * same key.
   */
  lemma MarkedIffWanted<V>(c: Config<V>, s: State, i: nat)
    requires Inv(c, s) && AllDone(s) && i <= c.mask
    ensures Partnerless(s.tags[i]) <==> Filled(c.built[i]) && !(Wanted(s, c.data[i].key) && IsFirst(c, i))
  {
    assert SlotOk(c, s, i);
    SlotFacts(c, s, i);
    MarkedTagKeepsFingerprint(c.hash(c.data[i].key));
    if Filled(c.built[i]) && Wanted(s, c.data[i].key) && IsFirst(c, i) {
      var p :| 0 <= p < |s.probes| && s.probes[p].key == c.data[i].key;
      assert ProbeOk(c, s, p);
      FirstIsUnique(c, i, s.probes[p].pc.result.value);
    }
  }

  /** Every key that is stored has a first slot. */
  lemma {:induction false} FindFirst<V>(c: Config<V>, i: nat) returns (f: nat)
    requires Table(c.hash, c.mask, OuterTag, c.built, c.data) && i <= c.mask && Filled(c.built[i])
    ensures f <= c.mask && Filled(c.built[f]) && c.data[f].key == c.data[i].key && IsFirst(c, f)
    decreases Dist(HomeOf(c, c.data[i].key), i, c.mask)
  {
    var home := HomeOf(c, c.data[i].key);
    if IsFirst(c, i) {
      f := i;
    } else {
      var j: nat :| j <= c.mask && Dist(home, j, c.mask) < Dist(home, i, c.mask) && c.data[j].key == c.data[i].key;
      assert SlotInChain(c.hash, c.mask, OuterTag, c.built, c.data, i);
      f := FindFirst(c, j);
    }
  }

  lemma DistinctAreFirst<V>(c: Config<V>, i: nat)
    requires Table(c.hash, c.mask, OuterTag, c.built, c.data) && DistinctSlots(c.built, c.data)
    requires i <= c.mask && Filled(c.built[i])
    ensures IsFirst(c, i)
  {
    var f := FindFirst(c, i);
  }

  // ---------------------------------------------------------------------------------------------
  // The two halves of the outer join
  // ---------------------------------------------------------------------------------------------

  lemma {:induction false} ScanIsFilter<V>(tags: seq<bv8>, built: seq<bv8>, data: seq<Row<V>>, keys: seq<Key>)
    requires |tags| == |built| == |data|
    requires forall i :: 0 <= i < |tags| ==> (Partnerless(tags[i]) <==> Filled(built[i]) && data[i].key !in keys)
    ensures StoredWhere(tags, data, Partnerless) == WithoutPartner(Stored(built, data), keys)
  {
    if tags != [] {
      assert Partnerless(tags[0]) <==> Filled(built[0]) && data[0].key !in keys;
      ScanIsFilter(tags[1..], built[1..], data[1..], keys);
      WithoutPartnerConcat(if Filled(built[0]) then [data[0]] else [], Stored(built[1..], data[1..]), keys);
    }
  }

  /** All rows with key `k` are still there, except for the one in slot `marked`. */
  lemma {:induction false} ScanCount<V>(tags: seq<bv8>, built: seq<bv8>, data: seq<Row<V>>, k: Key, marked: Option<nat>)
    requires |tags| == |built| == |data|
    requires marked.Some? ==> marked.value < |data| && Filled(built[marked.value]) && data[marked.value].key == k
    requires forall i :: 0 <= i < |tags| && data[i].key == k ==>
               (Partnerless(tags[i]) <==> Filled(built[i]) && marked != Some(i))
    ensures KeyCount(StoredWhere(tags, data, Partnerless), k) + (if marked.Some? then 1 else 0)
         == KeyCount(Stored(built, data), k)
  {
    if tags != [] {
      var tail: Option<nat> := if marked.Some? && marked.value > 0 then Some(marked.value - 1) else None;
      forall i | 0 <= i < |tags| - 1 && data[1..][i].key == k
        ensures Partnerless(tags[1..][i]) <==> Filled(built[1..][i]) && tail != Some(i)
      {
        assert Partnerless(tags[i + 1]) <==> Filled(built[i + 1]) && marked != Some(i + 1);
      }
      ScanCount(tags[1..], built[1..], data[1..], k, tail);
      KeyCountConcat(if Filled(built[0]) then [data[0]] else [], Stored(built[1..], data[1..]), k);
      KeyCountConcat(if Partnerless(tags[0]) then [data[0]] else [], StoredWhere(tags[1..], data[1..], Partnerless), k);
    }
  }

  lemma KeyIsStored<V>(built: seq<bv8>, data: seq<Row<V>>, k: Key) returns (i: nat)
    requires |built| == |data| && KeyCount(Stored(built, data), k) > 0
    ensures i < |built| && Filled(built[i]) && data[i].key == k
  {
    if Filled(built[0]) && data[0].key == k {
      i := 0;
    } else {
      KeyCountConcat(if Filled(built[0]) then [data[0]] else [], Stored(built[1..], data[1..]), k);
      i := KeyIsStored(built[1..], data[1..], k);
      i := i + 1;
    }
  }

  /** The slot that ends up marked for key `k`, if there is one. */
  lemma MarkedSlot<V>(c: Config<V>, s: State, k: Key) returns (marked: Option<nat>)
    requires Inv(c, s)
    ensures marked.Some? <==> Wanted(s, k) && KeyCount(Stored(c.built, c.data), k) > 0
    ensures marked.Some? ==>
      marked.value <= c.mask && Filled(c.built[marked.value]) && c.data[marked.value].key == k && IsFirst(c, marked.value)
  {
    marked := None;
    if Wanted(s, k) && KeyCount(Stored(c.built, c.data), k) > 0 {
      var i := KeyIsStored(c.built, c.data, k);
      var f := FindFirst(c, i);
      marked := Some(f);
    }
  }

  /**
   * Main theorem, for build sides with or without duplicate keys and every interleaving of the probes: of each key that some
   * probe had, the iterator leaves out one row, and of any other key none.
   */
  lemma OuterScanCounts<V(!new)>(c: Config<V>, s: State, schedule: seq<nat>, build: seq<Row<V>>, k: Key)
    requires Initial(c, s) && ValidSchedule(schedule, |s.probes|) && multiset(Stored(c.built, c.data)) == multiset(build)
    requires AllDone(Run(c, s, schedule))
    ensures KeyCount(StoredWhere(Run(c, s, schedule).tags, c.data, Partnerless), k)
            + (if k in ProbeKeys(s.probes) && KeyCount(build, k) > 0 then 1 else 0)
         == KeyCount(build, k)
  {
    InitialInv(c, s);
    RunKeepsInv(c, s, schedule);
    KeyCountPermutation(Stored(c.built, c.data), build, k);
    WantedIsKey(s, k);
    WantedStays(s, Run(c, s, schedule), k);
    LeftOver(c, Run(c, s, schedule), k);
  }

  lemma LeftOver<V>(c: Config<V>, end: State, k: Key)
    requires Inv(c, end) && AllDone(end)
    ensures KeyCount(StoredWhere(end.tags, c.data, Partnerless), k)
            + (if Wanted(end, k) && KeyCount(Stored(c.built, c.data), k) > 0 then 1 else 0)
         == KeyCount(Stored(c.built, c.data), k)
  {
    var marked := MarkedSlot(c, end, k);
    forall i | 0 <= i <= c.mask && c.data[i].key == k
      ensures Partnerless(end.tags[i]) <==> Filled(c.built[i]) && marked != Some(i)
    {
      LeftOverAt(c, end, k, marked, i);
    }
    ScanCount(end.tags, c.built, c.data, k, marked);
  }

  lemma LeftOverAt<V>(c: Config<V>, end: State, k: Key, marked: Option<nat>, i: nat)
    requires Inv(c, end) && AllDone(end) && i <= c.mask && c.data[i].key == k
    requires marked.Some? <==> Wanted(end, k) && KeyCount(Stored(c.built, c.data), k) > 0
    requires marked.Some? ==>
      marked.value <= c.mask && Filled(c.built[marked.value]) && c.data[marked.value].key == k && IsFirst(c, marked.value)
    ensures Partnerless(end.tags[i]) <==> Filled(c.built[i]) && marked != Some(i)
  {
    MarkedIffWanted(c, end, i);
    if Filled(c.built[i]) && Wanted(end, k) && IsFirst(c, i) {
      SlotCounts(c.built, c.data, i);
      FirstIsUnique(c, i, marked.value);
    }
  }

  lemma {:induction false} SlotCounts<V>(built: seq<bv8>, data: seq<Row<V>>, i: nat)
    requires i < |built| == |data| && Filled(built[i])
    ensures KeyCount(Stored(built, data), data[i].key) > 0
  {
    KeyCountConcat(if Filled(built[0]) then [data[0]] else [], Stored(built[1..], data[1..]), data[i].key);
    if i > 0 {
      SlotCounts(built[1..], data[1..], i - 1);
    }
  }

  /**
   * With a primary key on the build side that is the outer join: walking the iterator yields exactly the build rows whose key
   * no probe had, each once.
   */
  lemma OuterScanIsAntiJoin<V(!new)>(c: Config<V>, s: State, schedule: seq<nat>, build: seq<Row<V>>)
    requires Initial(c, s) && ValidSchedule(schedule, |s.probes|)
    requires DistinctSlots(c.built, c.data) && multiset(Stored(c.built, c.data)) == multiset(build)
    requires AllDone(Run(c, s, schedule))
    ensures multiset(StoredWhere(Run(c, s, schedule).tags, c.data, Partnerless))
         == multiset(WithoutPartner(build, ProbeKeys(s.probes)))
  {
    InitialInv(c, s);
    RunKeepsInv(c, s, schedule);
    var end := Run(c, s, schedule);
    EndMarks(c, s, end);
    ScanIsFilter(end.tags, c.built, c.data, ProbeKeys(s.probes));
    FilterSameRows(Stored(c.built, c.data), build, ProbeKeys(s.probes));
  }

  lemma EndMarks<V>(c: Config<V>, s: State, end: State)
    requires Inv(c, end) && AllDone(end) && DistinctSlots(c.built, c.data) && SameKeys(s.probes, end.probes)
    ensures forall i :: 0 <= i <= c.mask ==>
      (Partnerless(end.tags[i]) <==> Filled(c.built[i]) && c.data[i].key !in ProbeKeys(s.probes))
  {
    forall i | 0 <= i <= c.mask
      ensures Partnerless(end.tags[i]) <==> Filled(c.built[i]) && c.data[i].key !in ProbeKeys(s.probes)
    {
      MarkedIffWanted(c, end, i);
      if Filled(c.built[i]) {
        DistinctAreFirst(c, i);
      }
      WantedStays(s, end, c.data[i].key);
      WantedIsKey(s, c.data[i].key);
    }
  }

  lemma WantedIsKey(s: State, k: Key)
    ensures Wanted(s, k) <==> k in ProbeKeys(s.probes)
  {
    if p :| 0 <= p < |s.probes| && s.probes[p].key == k {
      assert ProbeKeys(s.probes)[p] == k;
    }
    if p :| 0 <= p < |ProbeKeys(s.probes)| && ProbeKeys(s.probes)[p] == k {
      assert s.probes[p].key == k;
    }
  }

  /** The other half: what a finished probe returned is the row with its key, or nothing if no build row has it. */
  lemma OuterProbeResult<V>(c: Config<V>, s: State, schedule: seq<nat>, p: nat)
    requires Initial(c, s) && ValidSchedule(schedule, |s.probes|)
    requires p < |s.probes| && Run(c, s, schedule).probes[p].pc.Done?
    ensures match Run(c, s, schedule).probes[p].pc.result
            case Some(i) => i <= c.mask && Filled(c.built[i]) && c.data[i].key == s.probes[p].key && IsFirst(c, i)
            case None => forall j :: 0 <= j <= c.mask && Filled(c.built[j]) ==> c.data[j].key != s.probes[p].key
  {
    InitialInv(c, s);
    RunKeepsInv(c, s, schedule);
    assert ProbeOk(c, Run(c, s, schedule), p);
  }

  // ---------------------------------------------------------------------------------------------
  // Progress
  // ---------------------------------------------------------------------------------------------

  function ProbeCost<V>(c: Config<V>): Probe<Pc> -> nat {
    (me: Probe<Pc>) =>
      match me.pc
      case Load(idx) => if idx <= c.mask then c.mask + 3 - Dist(HomeOf(c, me.key), idx, c.mask) else 0
      case Store(_) => 1
      case Done(_) => 0
  }

  lemma StepUsesBound<V>(c: Config<V>, s: State, p: nat)
    requires Inv(c, s) && p < |s.probes| && !s.probes[p].pc.Done?
    ensures Total(Step(c, s, p).probes, ProbeCost(c)) < Total(s.probes, ProbeCost(c))
  {
    var me := s.probes[p];
    assert ProbeOk(c, s, p);
    TotalUpdate(s.probes, ProbeCost(c), p, Step(c, s, p).probes[p]);
    if me.pc.Load? {
      SlotFacts(c, s, me.pc.idx);
      if Step(c, s, p).probes[p].pc.Load? {
        AdvanceKeepsInv(c, s, p, me.pc.idx);
      }
    }
  }

  /** A schedule that only ever picks probes that are not done. */
  ghost predicate Busy<V>(c: Config<V>, s: State, schedule: seq<nat>)
    requires Shape(c, s)
    decreases |schedule|
  {
    schedule == [] ||
    (&& schedule[0] < |s.probes| && !s.probes[schedule[0]].pc.Done?
     && (StepKeepsProbes(c, s, schedule[0]); Busy(c, Step(c, s, schedule[0]), schedule[1..])))
  }

  /** Under every interleaving the probes are done after a bounded number of actions. */
  lemma {:induction false} ProbesEnd<V>(c: Config<V>, s: State, schedule: seq<nat>)
    requires Inv(c, s) && Busy(c, s, schedule)
    ensures |schedule| <= Total(s.probes, ProbeCost(c))
    decreases |schedule|
  {
    if schedule != [] {
      StepUsesBound(c, s, schedule[0]);
      StepKeepsInv(c, s, schedule[0]);
      ProbesEnd(c, Step(c, s, schedule[0]), schedule[1..]);
    }
  }
}
