/**
 * Concurrent semi join probes. Every probe walks the chain of its key and tries to consume a live row by inverting its
 * tag with a compare-and-swap. Loads and swaps of all probes interleave arbitrarily.
 */
module SemiJoin {
  import opened Options
  import opened Hashing
  import opened ProbeChain
  import opened Bags
  import opened ProbePhase
  import opened Schedules

  datatype Pc = Load(idx: nat) | Cas(idx: nat) | Done(result: Option<nat>)

  /** `taker` is auxiliary history: which probe consumed a slot. */
  datatype State = State(tags: seq<bv8>, taker: seq<Option<nat>>, probes: seq<Probe<Pc>>)

  ghost predicate Shape<V>(c: Config<V>, s: State) {
    && |s.tags| == |s.taker| == |c.data| == |c.built| == c.mask + 1
    && forall p :: 0 <= p < |s.probes| ==> s.probes[p].pc.Done? || s.probes[p].pc.idx <= c.mask
  }

  function Become(s: State, p: nat, pc: Pc): State
    requires p < |s.probes|
  {
    s.(probes := s.probes[p := s.probes[p].(pc := pc)])
  }

  /** One atomic action of probe `p`. */
  function Step<V>(c: Config<V>, s: State, p: nat): State
    requires Shape(c, s) && p < |s.probes|
  {
    var me := s.probes[p];
    match me.pc
    case Load(idx) =>
      if !Filled(s.tags[idx]) then
        Become(s, p, Done(None))
      else if s.tags[idx] == TargetTag(c.hash(me.key)) && c.data[idx].key == me.key then
        Become(s, p, Cas(idx))
      else
        Become(s, p, Load(Next(idx, c.mask)))
    case Cas(idx) =>
      if s.tags[idx] == TargetTag(c.hash(me.key)) then
        Become(s, p, Done(Some(idx)))
          .(tags := s.tags[idx := InvertedTag(c.hash(me.key))], taker := s.taker[idx := Some(p)])
      else
        Become(s, p, Load(Next(idx, c.mask)))
    case Done(_) =>
      s
  }

  // ---------------------------------------------------------------------------------------------
  // Invariant
  // ---------------------------------------------------------------------------------------------

  /** A slot is free for good, live, or consumed for good. */
  ghost predicate SlotOk<V>(c: Config<V>, s: State, i: nat)
    requires Shape(c, s) && i <= c.mask
  {
    var h := c.hash(c.data[i].key);
    if !Filled(c.built[i]) then s.tags[i] == c.built[i] && s.taker[i].None?
    else match s.taker[i]
      case None => s.tags[i] == TargetTag(h)
      case Some(p) =>
        && s.tags[i] == InvertedTag(h)
        && p < |s.probes| && s.probes[p].pc == Done(Some(i)) && s.probes[p].key == c.data[i].key
  }

  /** All rows with key `k` that a probe passes before it reaches `idx` have been consumed. */
  ghost predicate ConsumedBefore<V>(c: Config<V>, s: State, k: Key, idx: nat)
    requires Shape(c, s) && idx <= c.mask
  {
    forall j :: 0 <= j <= c.mask && Dist(HomeOf(c, k), j, c.mask) < Dist(HomeOf(c, k), idx, c.mask) && c.data[j].key == k
      ==> s.taker[j].Some?
  }

  ghost predicate AllConsumed<V>(c: Config<V>, s: State, k: Key)
    requires Shape(c, s)
  {
    forall j :: 0 <= j <= c.mask && Filled(c.built[j]) && c.data[j].key == k ==> s.taker[j].Some?
  }

  ghost predicate ProbeOk<V>(c: Config<V>, s: State, p: nat)
    requires Shape(c, s) && p < |s.probes|
  {
    var me := s.probes[p];
    match me.pc
    case Load(idx) =>
      && PathFilled(c.built, c.mask, HomeOf(c, me.key), idx) && ConsumedBefore(c, s, me.key, idx)
    case Cas(idx) =>
      && PathFilled(c.built, c.mask, HomeOf(c, me.key), idx) && ConsumedBefore(c, s, me.key, idx)
      && Filled(c.built[idx]) && c.data[idx].key == me.key
    case Done(None) =>
      AllConsumed(c, s, me.key)
    case Done(Some(i)) =>
      i <= c.mask && Filled(c.built[i]) && s.taker[i] == Some(p)
  }

  ghost predicate Inv<V>(c: Config<V>, s: State) {
    && Shape(c, s)
    && Table(c.hash, c.mask, TargetTag, c.built, c.data)
    && (forall i :: 0 <= i <= c.mask ==> SlotOk(c, s, i))
    && (forall p :: 0 <= p < |s.probes| ==> ProbeOk(c, s, p))
  }

  lemma SameFill<V>(c: Config<V>, s: State, i: nat)
    requires Inv(c, s) && i <= c.mask
    ensures Filled(s.tags[i]) <==> Filled(c.built[i])
    ensures Filled(c.built[i]) && s.tags[i] == TargetTag(c.hash(c.data[i].key)) ==> s.taker[i].None?
  {
    assert SlotOk(c, s, i);
    InvertedTagIsDead(c.hash(c.data[i].key));
  }

  /** Stepping over a filled slot whose row is not wanted or already consumed. */
  lemma AdvanceKeepsInv<V>(c: Config<V>, s: State, p: nat, idx: nat)
    requires Inv(c, s) && p < |s.probes|
    requires s.probes[p].pc == Load(idx) || s.probes[p].pc == Cas(idx)
    requires Filled(c.built[idx]) && (c.data[idx].key == s.probes[p].key ==> s.taker[idx].Some?)
    ensures Inv(c, Become(s, p, Load(Next(idx, c.mask))))
    ensures var home := HomeOf(c, s.probes[p].key); Dist(home, Next(idx, c.mask), c.mask) == Dist(home, idx, c.mask) + 1
  {
    var k := s.probes[p].key;
    var s' := Become(s, p, Load(Next(idx, c.mask)));
    assert ProbeOk(c, s, p);
    PathAdvance(c.built, c.mask, HomeOf(c, k), idx);
    forall j | 0 <= j <= c.mask && Dist(HomeOf(c, k), j, c.mask) < Dist(HomeOf(c, k), Next(idx, c.mask), c.mask)
                 && c.data[j].key == k
      ensures s.taker[j].Some?
    {
      assert j == idx || Dist(HomeOf(c, k), j, c.mask) < Dist(HomeOf(c, k), idx, c.mask);
    }
    ProbeMoves(c, s, s', p);
  }

  /** A step that leaves the tags alone keeps what is known about the other probes and about all slots. */
  lemma ProbeMoves<V>(c: Config<V>, s: State, s': State, p: nat)
    requires Inv(c, s) && p < |s.probes| && !s.probes[p].pc.Done?
    requires |s'.probes| == |s.probes| && s' == Become(s, p, s'.probes[p].pc)
    requires Shape(c, s') && ProbeOk(c, s', p)
    ensures Inv(c, s')
  {
    forall i | 0 <= i <= c.mask ensures SlotOk(c, s', i) {
      assert SlotOk(c, s, i);
    }
    forall q | 0 <= q < |s'.probes| ensures ProbeOk(c, s', q) {
      assert ProbeOk(c, s, q);
    }
  }

  lemma ConsumeKeepsInv<V>(c: Config<V>, s: State, p: nat)
    requires Inv(c, s) && p < |s.probes|
    requires var me := s.probes[p]; me.pc.Cas? && s.tags[me.pc.idx] == TargetTag(c.hash(me.key))
    ensures Inv(c, Step(c, s, p))
  {
    var idx := s.probes[p].pc.idx;
    var s' := Step(c, s, p);
    assert ProbeOk(c, s, p);
    SameFill(c, s, idx);
    forall i | 0 <= i <= c.mask ensures SlotOk(c, s', i) {
      assert SlotOk(c, s, i);
    }
    forall q | 0 <= q < |s'.probes| ensures ProbeOk(c, s', q) {
      assert ProbeOk(c, s, q);
    }
  }

  /** Every atomic action keeps the invariant: tags only move from live to consumed, and no row is consumed twice. */
  lemma StepKeepsInv<V>(c: Config<V>, s: State, p: nat)
    requires Inv(c, s) && p < |s.probes|
    ensures Inv(c, Step(c, s, p))
  {
    var me := s.probes[p];
    assert ProbeOk(c, s, p);
    match me.pc
    case Load(idx) =>
      SameFill(c, s, idx);
      if !Filled(s.tags[idx]) {
        ChainExhausted(c, s, p, idx);
        ProbeMoves(c, s, Step(c, s, p), p);
      } else if s.tags[idx] == TargetTag(c.hash(me.key)) && c.data[idx].key == me.key {
        ProbeMoves(c, s, Step(c, s, p), p);
      } else {
        assert SlotOk(c, s, idx);
        AdvanceKeepsInv(c, s, p, idx);
      }
    case Cas(idx) =>
      if s.tags[idx] == TargetTag(c.hash(me.key)) {
        ConsumeKeepsInv(c, s, p);
      } else {
        assert SlotOk(c, s, idx);
        AdvanceKeepsInv(c, s, p, idx);
      }
    case Done(_) =>
  }

  /** A probe that reaches a free slot has seen every row with its key. */
  lemma ChainExhausted<V>(c: Config<V>, s: State, p: nat, idx: nat)
    requires Inv(c, s) && p < |s.probes| && s.probes[p].pc == Load(idx) && !Filled(c.built[idx])
    ensures AllConsumed(c, s, s.probes[p].key)
  {
    var k := s.probes[p].key;
    assert ProbeOk(c, s, p);
    forall j | 0 <= j <= c.mask && Filled(c.built[j]) && c.data[j].key == k ensures s.taker[j].Some? {
      assert SlotInChain(c.hash, c.mask, TargetTag, c.built, c.data, j);
      FreeSlotEndsChain(c.built, c.mask, HomeOf(c, k), idx, j);
    }
  }

  // ---------------------------------------------------------------------------------------------
  // Runs
  // ---------------------------------------------------------------------------------------------

  ghost predicate Initial<V>(c: Config<V>, s: State) {
    && Shape(c, s)
    && Table(c.hash, c.mask, TargetTag, c.built, c.data)
    && s.tags == c.built
    && (forall i :: 0 <= i <= c.mask ==> s.taker[i].None?)
    && (forall p :: 0 <= p < |s.probes| ==> s.probes[p].pc == Load(HomeOf(c, s.probes[p].key)))
  }

  lemma InitialInv<V>(c: Config<V>, s: State)
    requires Initial(c, s)
    ensures Inv(c, s)
  {
    forall i | 0 <= i <= c.mask ensures SlotOk(c, s, i) {
      assert SlotInChain(c.hash, c.mask, TargetTag, c.built, c.data, i);
    }
  }

  lemma StepKeepsProbes<V>(c: Config<V>, s: State, p: nat)
    requires Shape(c, s) && p < |s.probes|
    ensures Shape(c, Step(c, s, p)) && SameKeys(s.probes, Step(c, s, p).probes)
  {
    assert Step(c, s, p).probes == s.probes[p := Step(c, s, p).probes[p]];
  }

  /** Execute a schedule: a sequence of probe numbers. */
  ghost function Run<V>(c: Config<V>, s: State, schedule: seq<nat>): (s': State)
    requires Shape(c, s) && ValidSchedule(schedule, |s.probes|)
    ensures Shape(c, s') && SameKeys(s.probes, s'.probes)
    decreases |schedule|
  {
    if schedule == [] then s
    else
      StepKeepsProbes(c, s, schedule[0]);
      Run(c, Step(c, s, schedule[0]), schedule[1..])
  }

  lemma {:induction false} RunKeepsInv<V>(c: Config<V>, s: State, schedule: seq<nat>)
    requires Inv(c, s) && ValidSchedule(schedule, |s.probes|)
    ensures Inv(c, Run(c, s, schedule))
    decreases |schedule|
  {
    if schedule != [] {
      StepKeepsInv(c, s, schedule[0]);
      StepKeepsProbes(c, s, schedule[0]);
      RunKeepsInv(c, Step(c, s, schedule[0]), schedule[1..]);
    }
  }

  /** Two probes never return the same row, and a probe only returns a row with its key: at every moment of every run. */
  lemma AtMostOnce<V>(c: Config<V>, s: State, schedule: seq<nat>, p: nat, q: nat, i: nat)
    requires Initial(c, s) && ValidSchedule(schedule, |s.probes|)
    requires p < |s.probes| && q < |s.probes|
    requires Run(c, s, schedule).probes[p].pc == Done(Some(i))
    requires Run(c, s, schedule).probes[q].pc == Done(Some(i))
    ensures p == q
    ensures i <= c.mask && Filled(c.built[i]) && c.data[i].key == s.probes[p].key
  {
    InitialInv(c, s);
    RunKeepsInv(c, s, schedule);
    var end := Run(c, s, schedule);
    assert ProbeOk(c, end, p) && ProbeOk(c, end, q) && SlotOk(c, end, i);
  }

  ghost predicate AllDone(s: State) {
    forall p :: 0 <= p < |s.probes| ==> s.probes[p].pc.Done?
  }

  /** The build rows with key `k`, the probes for `k`, and the rows with key `k` that were returned. */
  ghost function BuildSlots<V>(c: Config<V>, k: Key): set<nat>
    requires |c.built| == |c.data|
  {
    set i: nat | i < |c.built| && Filled(c.built[i]) && c.data[i].key == k
  }

  ghost function ProbesFor(s: State, k: Key): set<nat> {
    set p: nat | p < |s.probes| && s.probes[p].key == k
  }

  predicate Returns(s: State, p: nat, i: nat) {
    p < |s.probes| && s.probes[p].pc == Done(Some(i))
  }

  ghost predicate Returned(s: State, i: nat) {
    exists p :: 0 <= p < |s.probes| && s.probes[p].pc == Done(Some(i))
  }

  ghost function ReturnedSlots<V>(c: Config<V>, s: State, k: Key): set<nat>
    requires |c.built| == |c.data|
  {
    set i | i in BuildSlots(c, k) && Returned(s, i)
  }

  lemma ReturnedIffTaken<V>(c: Config<V>, s: State, i: nat)
    requires Inv(c, s) && i <= c.mask
    ensures Returned(s, i) <==> s.taker[i].Some?
  {
    assert SlotOk(c, s, i);
    if s.taker[i].Some? {
      assert s.probes[s.taker[i].value].pc == Done(Some(i));
    }
    if Returned(s, i) {
      var p :| 0 <= p < |s.probes| && s.probes[p].pc == Done(Some(i));
      assert ProbeOk(c, s, p);
    }
  }

  /** An injection from `a` onto `b` makes them equally large. */
  lemma {:induction false} BijectionSize(a: set<nat>, b: set<nat>, f: map<nat, nat>)
    requires f.Keys == a && f.Values == b
    requires forall x, y :: x in a && y in a && f[x] == f[y] ==> x == y
    ensures |a| == |b|
  {
    if a != {} {
      var x :| x in a;
      var g := map y | y in a - {x} :: f[y];
      assert f[x] in f.Values;
      assert g.Values == b - {f[x]} by {
        forall v | v in b - {f[x]} ensures v in g.Values {
          var y :| y in f && f[y] == v;
          assert y in g && g[y] == v;
        }
        forall v | v in g.Values ensures v in b - {f[x]} {
          var y :| y in g && g[y] == v;
          assert f[y] in f.Values;
        }
      }
      BijectionSize(a - {x}, b - {f[x]}, g);
    } else {
      assert f == map[];
    }
  }

  /** The probes for `k` that came back with a row. */
  ghost function Winners(s: State, k: Key): set<nat> {
    set p: nat | p < |s.probes| && s.probes[p].key == k && s.probes[p].pc.Done? && s.probes[p].pc.result.Some?
  }

  lemma WinnersMatchRows<V>(c: Config<V>, s: State, k: Key)
    requires Inv(c, s)
    ensures |ReturnedSlots(c, s, k)| == |Winners(s, k)|
  {
    var rows := ReturnedSlots(c, s, k);
    forall i | i in rows ensures s.taker[i].Some? {
      ReturnedIffTaken(c, s, i);
    }
    forall i | i in rows ensures s.taker[i].value in Winners(s, k) && s.probes[s.taker[i].value].pc == Done(Some(i)) {
      assert SlotOk(c, s, i);
    }
    var f := map i | i in rows :: s.taker[i].value;
    assert f.Values == Winners(s, k) by {
      forall p | p in Winners(s, k) ensures p in f.Values {
        var i := s.probes[p].pc.result.value;
        assert ProbeOk(c, s, p) && SlotOk(c, s, i);
        assert Returned(s, i) && i in rows && f[i] == p;
      }
    }
    BijectionSize(rows, Winners(s, k), f);
  }

  /**
   * Main theorem of the semi join, for build sides with or without duplicate keys and for every interleaving: once all
   * probes are done, the number of rows with key `k` that were returned is the smaller of the number of build rows
   * and the number of probes with that key.
   */
  lemma SemiJoinCounts<V>(c: Config<V>, s: State, schedule: seq<nat>, k: Key)
    requires Initial(c, s) && ValidSchedule(schedule, |s.probes|)
    requires AllDone(Run(c, s, schedule))
    ensures var build, probes := |BuildSlots(c, k)|, |ProbesFor(s, k)|;
      |ReturnedSlots(c, Run(c, s, schedule), k)| == if build <= probes then build else probes
  {
    InitialInv(c, s);
    RunKeepsInv(c, s, schedule);
    var end := Run(c, s, schedule);
    WinnersMatchRows(c, end, k);
    assert ProbesFor(s, k) == ProbesFor(end, k);
    SubsetSize(Winners(end, k), ProbesFor(end, k));
    SubsetSize(ReturnedSlots(c, end, k), BuildSlots(c, k));
    if p :| p in ProbesFor(end, k) && p !in Winners(end, k) {
      assert ProbeOk(c, end, p);
      forall i | i in BuildSlots(c, k) ensures i in ReturnedSlots(c, end, k) {
        ReturnedIffTaken(c, end, i);
      }
      assert ReturnedSlots(c, end, k) == BuildSlots(c, k);
    } else {
      assert Winners(end, k) == ProbesFor(end, k);
    }
  }

  /** With a primary key on the build side: a build row is returned, by exactly one probe, iff some probe had its key. */
  lemma SemiJoinExactlyOnce<V>(c: Config<V>, s: State, schedule: seq<nat>, i: nat)
    requires Initial(c, s) && ValidSchedule(schedule, |s.probes|)
    requires AllDone(Run(c, s, schedule))
    requires i <= c.mask && Filled(c.built[i]) && BuildSlots(c, c.data[i].key) == {i}
    ensures Returned(Run(c, s, schedule), i) <==> exists p :: 0 <= p < |s.probes| && s.probes[p].key == c.data[i].key
    ensures forall p: nat, q: nat :: Returns(Run(c, s, schedule), p, i) && Returns(Run(c, s, schedule), q, i) ==> p == q
  {
    forall p: nat, q: nat | Returns(Run(c, s, schedule), p, i) && Returns(Run(c, s, schedule), q, i) ensures p == q {
      AtMostOnce(c, s, schedule, p, q, i);
    }
    var k := c.data[i].key;
    var end := Run(c, s, schedule);
    SemiJoinCounts(c, s, schedule, k);
    assert ReturnedSlots(c, end, k) == if Returned(end, i) then {i} else {};
    if p :| 0 <= p < |s.probes| && s.probes[p].key == k {
      assert p in ProbesFor(s, k);
    } else {
      assert ProbesFor(s, k) == {};
    }
  }

  // ---------------------------------------------------------------------------------------------
  // Progress
  // ---------------------------------------------------------------------------------------------

  function ProbeCost<V>(c: Config<V>): Probe<Pc> -> nat {
    (me: Probe<Pc>) =>
      match me.pc
      case Load(idx) => if idx <= c.mask then 2 * (c.mask + 1 - Dist(HomeOf(c, me.key), idx, c.mask)) + 1 else 0
      case Cas(idx) => if idx <= c.mask then 2 * (c.mask + 1 - Dist(HomeOf(c, me.key), idx, c.mask)) else 0
      case Done(_) => 0
  }

  /** Every action of an unfinished probe, a lost race included, brings the end closer. */
  lemma StepUsesBound<V>(c: Config<V>, s: State, p: nat)
    requires Inv(c, s) && p < |s.probes| && !s.probes[p].pc.Done?
    ensures Total(Step(c, s, p).probes, ProbeCost(c)) < Total(s.probes, ProbeCost(c))
  {
    var me := s.probes[p];
    var idx := me.pc.idx;
    assert ProbeOk(c, s, p) && SlotOk(c, s, idx);
    SameFill(c, s, idx);
    TotalUpdate(s.probes, ProbeCost(c), p, Step(c, s, p).probes[p]);
    if Step(c, s, p).probes[p].pc.Load? {
      AdvanceKeepsInv(c, s, p, idx);
    }
  }

  /** A schedule that only ever picks probes that are not done. */
  ghost predicate Busy<V>(c: Config<V>, s: State, schedule: seq<nat>)
    requires Shape(c, s)
    decreases |schedule|
  {
    schedule == [] ||
    (&& schedule[0] < |s.probes| && !s.probes[schedule[0]].pc.Done?
     && (StepKeepsProbes(c, s, schedule[0]); Busy(c, Step(c, s, schedule[0]), schedule[1..])))
  }

  /** Under every interleaving the probes are done after a bounded number of actions. */
  lemma {:induction false} ProbesEnd<V>(c: Config<V>, s: State, schedule: seq<nat>)
    requires Inv(c, s) && Busy(c, s, schedule)
    ensures |schedule| <= Total(s.probes, ProbeCost(c))
    decreases |schedule|
  {
    if schedule != [] {
      StepUsesBound(c, s, schedule[0]);
      StepKeepsInv(c, s, schedule[0]);
      ProbesEnd(c, Step(c, s, schedule[0]), schedule[1..]);
    }
  }
}
