/**
 * Relaxed operator fusion: which intervals of a pipeline are compiled, which suboperators are interpreted, and in which order
 * one morsel passes through them.
 */
module RofSchedule {
  import opened Options
  import opened Repipe

  datatype Strategy = Default | BeginVectorized | EndVectorized

  /** A half-open interval of suboperators. */
  datatype Interval = Interval(start: nat, end: nat)

  // ---------------------------------------------------------------------------------------------
  // Markers
  // ---------------------------------------------------------------------------------------------

  /** Whether the scan over the markers is inside a vectorised block before suboperator `k`. */
  function InBlock(markers: seq<Strategy>, k: nat): bool
    requires k <= |markers|
  {
    if k == 0 then false
    else match markers[k - 1]
      case Default => InBlock(markers, k - 1)
      case BeginVectorized => true
      case EndVectorized => false
  }

  /** A block contains the suboperators of both of its markers. */
  predicate Vectorised(markers: seq<Strategy>, k: nat)
    requires k < |markers|
  {
    InBlock(markers, k) || markers[k].BeginVectorized?
  }

  /** Blocks begin outside of blocks and end inside. */
  ghost predicate WellBracketed(markers: seq<Strategy>) {
    forall k :: 0 <= k < |markers| ==>
      (markers[k].BeginVectorized? ==> !InBlock(markers, k)) && (markers[k].EndVectorized? ==> InBlock(markers, k))
  }

  /** A scope guard marks the first and the last suboperator attached during its lifetime, in this order, if there are any. */
  function Mark(markers: seq<Strategy>, guard: Interval): (marked: seq<Strategy>)
    requires guard.start <= guard.end <= |markers|
    ensures |marked| == |markers|
  {
    if guard.start == guard.end then markers
    else markers[guard.start := BeginVectorized][guard.end - 1 := EndVectorized]
  }

  /** Guards of a pipeline of `n` suboperators, whose lifetimes follow one another. */
  ghost predicate InSequence(guards: seq<Interval>, n: nat) {
    && (forall i :: 0 <= i < |guards| ==> guards[i].start <= guards[i].end <= n)
    && (forall i, j :: 0 <= i < j < |guards| ==> guards[i].end <= guards[j].start)
  }

  function Guarded(n: nat, guards: seq<Interval>): (markers: seq<Strategy>)
    requires InSequence(guards, n)
    ensures |markers| == n
  {
    if guards == [] then seq(n, (k: int) => Default) else Mark(Guarded(n, guards[..|guards| - 1]), guards[|guards| - 1])
  }

  lemma {:induction false} MarkBlock(markers: seq<Strategy>, guard: Interval, k: nat)
    requires guard.start < guard.end <= |markers| && k <= |markers|
    requires !InBlock(markers, guard.start) && forall j :: guard.start <= j < |markers| ==> markers[j].Default?
    ensures k >= guard.start ==> !InBlock(markers, k)
    ensures InBlock(Mark(markers, guard), k) == (InBlock(markers, k) || guard.start < k < guard.end)
  {
    if k != 0 {
      MarkBlock(markers, guard, k - 1);
    }
  }

  /** The first and the last suboperator of a guard, if these are two. */
  ghost predicate Begins(guards: seq<Interval>, k: nat) {
    exists i :: 0 <= i < |guards| && guards[i].start == k < guards[i].end - 1
  }

  ghost predicate Ends(guards: seq<Interval>, k: nat) {
    exists i :: 0 <= i < |guards| && guards[i].start <= k == guards[i].end - 1
  }

  ghost predicate Inside(guards: seq<Interval>, k: nat) {
    exists i :: 0 <= i < |guards| && guards[i].start < k < guards[i].end
  }

  ghost predicate MarkersDescribe(guards: seq<Interval>, markers: seq<Strategy>) {
    && (forall k :: 0 <= k < |markers| ==> markers[k].BeginVectorized? == Begins(guards, k))
    && (forall k :: 0 <= k < |markers| ==> markers[k].EndVectorized? == Ends(guards, k))
    && (forall k :: 0 <= k <= |markers| ==> InBlock(markers, k) == Inside(guards, k))
  }

  lemma {:induction false} GuardedDescribes(n: nat, guards: seq<Interval>)
    requires InSequence(guards, n)
    ensures MarkersDescribe(guards, Guarded(n, guards))
  {
    if guards == [] {
      forall k: nat | k <= n ensures !InBlock(Guarded(n, guards), k) {
        NoBlock(Guarded(n, guards), k);
      }
    } else {
      var init, last := guards[..|guards| - 1], guards[|guards| - 1];
      GuardedDescribes(n, init);
      assert guards == init + [last];
      OneMoreGuard(init, last, Guarded(n, init));
    }
  }

  lemma {:induction false} NoBlock(markers: seq<Strategy>, k: nat)
    requires k <= |markers| && forall j :: 0 <= j < |markers| ==> markers[j].Default?
    ensures !InBlock(markers, k)
  {
    if k != 0 {
      NoBlock(markers, k - 1);
    }
  }

  lemma OneMoreGuard(init: seq<Interval>, last: Interval, markers: seq<Strategy>)
    requires InSequence(init + [last], |markers|) && MarkersDescribe(init, markers)
    requires last.start <= last.end <= |markers|
    ensures MarkersDescribe(init + [last], Mark(markers, last))
  {
    var guards := init + [last];
    assert last == guards[|init|];
    forall i | 0 <= i < |init| ensures init[i] == guards[i] && init[i].end <= last.start {
    }
    if last.start < last.end {
      forall k: nat | k <= |markers| ensures InBlock(Mark(markers, last), k) == (InBlock(markers, k) || last.start < k < last.end) {
        MarkBlock(markers, last, k);
      }
    }
    forall k: nat | k <= |markers|
      ensures Inside(guards, k) == (Inside(init, k) || last.start < k < last.end)
      ensures Begins(guards, k) == (Begins(init, k) || last.start == k < last.end - 1)
      ensures Ends(guards, k) == (Ends(init, k) || last.start <= k == last.end - 1)
    {
      GuardsSplit(init, last, k);
    }
  }

  lemma GuardsSplit(init: seq<Interval>, last: Interval, k: nat)
    ensures Inside(init + [last], k) == (Inside(init, k) || last.start < k < last.end)
    ensures Begins(init + [last], k) == (Begins(init, k) || last.start == k < last.end - 1)
    ensures Ends(init + [last], k) == (Ends(init, k) || last.start <= k == last.end - 1)
  {
    var guards := init + [last];
    assert guards[|init|] == last;
    assert forall i :: 0 <= i < |init| ==> guards[i] == init[i];
  }

  ghost predicate NoneIsSingle(guards: seq<Interval>) {
    forall i :: 0 <= i < |guards| ==> guards[i].end - guards[i].start != 1
  }

  lemma BracketedIff(guards: seq<Interval>, markers: seq<Strategy>)
    requires InSequence(guards, |markers|) && MarkersDescribe(guards, markers)
    ensures WellBracketed(markers) == NoneIsSingle(guards)
  {
    forall i | 0 <= i < |guards| && guards[i].end - guards[i].start == 1 ensures !WellBracketed(markers) {
      var k := guards[i].start;
      assert Ends(guards, k) && !Inside(guards, k);
      assert markers[k].EndVectorized? && !InBlock(markers, k);
    }
    if NoneIsSingle(guards) {
      forall k | 0 <= k < |markers|
        ensures (Begins(guards, k) ==> !Inside(guards, k)) && (Ends(guards, k) ==> Inside(guards, k))
      {
      }
    }
  }

  lemma VectorisedIff(guards: seq<Interval>, markers: seq<Strategy>, k: nat)
    requires MarkersDescribe(guards, markers) && NoneIsSingle(guards) && k < |markers|
    ensures Vectorised(markers, k) <==> exists i :: 0 <= i < |guards| && guards[i].start <= k < guards[i].end
  {
    assert Vectorised(markers, k) == (Inside(guards, k) || Begins(guards, k));
  }

  /**
   * A guard around a single suboperator loses its beginning: the marker for the end replaces it. So the guards of a pipeline
   * yield proper blocks iff none guards exactly one, and then precisely what they guard is vectorised.
   */
  lemma GuardsAreBracketedIff(n: nat, guards: seq<Interval>)
    requires InSequence(guards, n)
    ensures WellBracketed(Guarded(n, guards)) <==> forall i :: 0 <= i < |guards| ==> guards[i].end - guards[i].start != 1
    ensures WellBracketed(Guarded(n, guards)) ==>
      forall k :: 0 <= k < n ==>
        (Vectorised(Guarded(n, guards), k) <==> exists i :: 0 <= i < |guards| && guards[i].start <= k < guards[i].end)
  {
    GuardedDescribes(n, guards);
    var markers := Guarded(n, guards);
    BracketedIff(guards, markers);
    if NoneIsSingle(guards) {
      forall k | 0 <= k < n
        ensures Vectorised(markers, k) <==> exists i :: 0 <= i < |guards| && guards[i].start <= k < guards[i].end
      {
        VectorisedIff(guards, markers, k);
      }
    }
  }

  // ---------------------------------------------------------------------------------------------
  // What gets compiled
  // ---------------------------------------------------------------------------------------------

  /** Where the interval begins that is open before suboperator `k`. */
  function OpenStart(markers: seq<Strategy>, k: nat): (start: nat)
    requires k <= |markers|
    ensures start <= k
  {
    if k == 0 then 0 else if markers[k - 1].EndVectorized? then k else OpenStart(markers, k - 1)
  }

  /** The intervals closed before suboperator `k`. */
  function Closed(markers: seq<Strategy>, k: nat): seq<Interval>
    requires k <= |markers|
  {
    if k == 0 then []
    else
      Closed(markers, k - 1)
      + if markers[k - 1].BeginVectorized? then [Interval(OpenStart(markers, k - 1), k - 1)] else []
  }

  function CompiledIntervals(markers: seq<Strategy>): seq<Interval> {
    var n := |markers|;
    Closed(markers, n) + if InBlock(markers, n) then [] else [Interval(OpenStart(markers, n), n)]
  }

  /** The scan that sets up one compile state per interval. */
  method SetUpFused(markers: seq<Strategy>) returns (intervals: seq<Interval>)
    ensures intervals == CompiledIntervals(markers)
  {
    intervals := [];
    var inBlock := false;
    var start: nat := 0;
    for k := 0 to |markers|
      invariant inBlock == InBlock(markers, k) && start == OpenStart(markers, k) && intervals == Closed(markers, k)
    {
      if markers[k].BeginVectorized? {
        inBlock := true;
        intervals := intervals + [Interval(start, k)];
      }
      if markers[k].EndVectorized? {
        start := k + 1;
        inBlock := false;
      }
    }
    if !inBlock {
      intervals := intervals + [Interval(start, |markers|)];
    }
  }

  /** Behind a guard around a single suboperator, nothing before it is scheduled at all. */
  lemma SingleGuardDropsPrefix(n: nat, first: nat)
    requires first < n
    ensures CompiledIntervals(Guarded(n, [Interval(first, first + 1)])) == [Interval(first + 1, n)]
  {
    var guards := [Interval(first, first + 1)];
    var markers := Guarded(n, guards);
    GuardedDescribes(n, guards);
    for k := 0 to n
      invariant Closed(markers, k) == [] && OpenStart(markers, k) == if k <= first then 0 else first + 1
    {
    }
  }

  // ---------------------------------------------------------------------------------------------
  // What gets interpreted
  // ---------------------------------------------------------------------------------------------

  /** How many of the first `k` suboperators have an interpreter of their own: all but producers of strong links. */
  function InterpretersBefore(ops: seq<Op>, k: nat): (count: nat)
    requires k <= |ops|
    ensures count <= k
  {
    if k == 0 then 0 else InterpretersBefore(ops, k - 1) + if ops[k - 1].strongOut then 0 else 1
  }

  /** `interpreters` holds the suboperator of each interpreter, `offsets` the interpreter of each suboperator. */
  ghost predicate Interpreters(ops: seq<Op>, n: nat, interpreters: seq<nat>, offsets: seq<Option<nat>>)
    requires n <= |ops|
  {
    && |offsets| == n && |interpreters| == InterpretersBefore(ops, n)
    && forall k :: 0 <= k < n ==>
         match offsets[k]
         case None => ops[k].strongOut
         case Some(i) => !ops[k].strongOut && i < |interpreters| && interpreters[i] == k
  }

  method SetUpInterpreted(ops: seq<Op>) returns (interpreters: seq<nat>, offsets: seq<Option<nat>>)
    ensures Interpreters(ops, |ops|, interpreters, offsets)
  {
    interpreters, offsets := [], [];
    var idx: nat := 0;
    for k := 0 to |ops|
      invariant Interpreters(ops, k, interpreters, offsets) && idx == |interpreters|
    {
      if !ops[k].strongOut {
        interpreters, offsets := interpreters + [k], offsets + [Some(idx)];
        idx := idx + 1;
      } else {
        offsets := offsets + [None];
      }
    }
  }

  // ---------------------------------------------------------------------------------------------
  // One morsel
  // ---------------------------------------------------------------------------------------------

  /** One suboperator run, compiled or by its interpreter. */
  datatype Visit = Visit(op: nat, compiled: bool)

  /** The schedule that a morsel should follow through the first `n` suboperators. */
  function Schedule(ops: seq<Op>, markers: seq<Strategy>, n: nat): seq<Visit>
    requires n <= |ops| == |markers|
  {
    if n == 0 then []
    else
      Schedule(ops, markers, n - 1)
      + if !Vectorised(markers, n - 1) then [Visit(n - 1, true)]
        else if ops[n - 1].strongOut then []
        else [Visit(n - 1, false)]
  }

  function CompiledVisits(start: nat, end: nat): seq<Visit>
    requires start <= end
  {
    if start == end then [] else CompiledVisits(start, end - 1) + [Visit(end - 1, true)]
  }

  ghost predicate Increasing(visits: seq<Visit>, n: nat) {
    && (forall i :: 0 <= i < |visits| ==> visits[i].op < n)
    && (forall i, j :: 0 <= i < j < |visits| ==> visits[i].op < visits[j].op)
  }

  /** The schedule visits every suboperator at most once and in order; it leaves out exactly vectorised strong producers. */
  lemma {:induction false} ScheduleIsExact(ops: seq<Op>, markers: seq<Strategy>, n: nat)
    requires n <= |ops| == |markers|
    ensures Increasing(Schedule(ops, markers, n), n)
    ensures forall k, c :: 0 <= k < n ==>
      (Visit(k, c) in Schedule(ops, markers, n) <==> c == !Vectorised(markers, k) && (c || !ops[k].strongOut))
  {
    if n != 0 {
      ScheduleIsExact(ops, markers, n - 1);
    }
  }

  /** The intervals that the scan produces from suboperator `k` on. */
  function IntervalsFrom(markers: seq<Strategy>, k: nat, inBlock: bool, start: nat): seq<Interval>
    requires start <= k <= |markers|
    decreases |markers| - k
  {
    if k == |markers| then if inBlock then [] else [Interval(start, k)]
    else match markers[k]
      case Default => IntervalsFrom(markers, k + 1, inBlock, start)
      case BeginVectorized => [Interval(start, k)] + IntervalsFrom(markers, k + 1, true, start)
      case EndVectorized => IntervalsFrom(markers, k + 1, false, k + 1)
  }

  lemma {:induction false} ClosedAndRemaining(markers: seq<Strategy>, k: nat)
    requires k <= |markers|
    ensures CompiledIntervals(markers)
         == Closed(markers, k) + IntervalsFrom(markers, k, InBlock(markers, k), OpenStart(markers, k))
    decreases |markers| - k
  {
    if k < |markers| {
      ClosedAndRemaining(markers, k + 1);
    }
  }

  /** Inside of a block, no interval begins before the block has ended. */
  lemma {:induction false} LaterIntervals(markers: seq<Strategy>, k: nat, start: nat)
    requires start <= k <= |markers| && WellBracketed(markers) && InBlock(markers, k)
    ensures forall i :: 0 <= i < |IntervalsFrom(markers, k, true, start)| ==> IntervalsFrom(markers, k, true, start)[i].start > k
    decreases |markers| - k
  {
    if k < |markers| {
      if markers[k].EndVectorized? {
        StartsBehind(markers, k + 1, k + 1);
      } else {
        LaterIntervals(markers, k + 1, start);
      }
    }
  }

  lemma {:induction false} StartsBehind(markers: seq<Strategy>, k: nat, start: nat)
    requires start <= k <= |markers| && WellBracketed(markers) && !InBlock(markers, k)
    ensures forall i :: 0 <= i < |IntervalsFrom(markers, k, false, start)| ==>
      IntervalsFrom(markers, k, false, start)[i].start >= start
    decreases |markers| - k
  {
    if k < |markers| {
      if markers[k].BeginVectorized? {
        LaterIntervals(markers, k + 1, start);
      } else {
        StartsBehind(markers, k + 1, start);
      }
    }
  }

  /** Where the open interval ends: at the next block or at the end of the pipeline. */
  function NextBlock(markers: seq<Strategy>, k: nat): (end: nat)
    requires k <= |markers|
    ensures k <= end <= |markers|
    decreases |markers| - k
  {
    if k == |markers| || markers[k].BeginVectorized? then k else NextBlock(markers, k + 1)
  }

  /** No suboperator in front of the next block is vectorised. */
  lemma {:induction false} OpenInterval(markers: seq<Strategy>, k: nat)
    requires k <= |markers| && WellBracketed(markers) && !InBlock(markers, k)
    ensures !InBlock(markers, NextBlock(markers, k))
    ensures forall j :: k <= j < NextBlock(markers, k) ==> !Vectorised(markers, j)
    decreases |markers| - k
  {
    if k < |markers| && !markers[k].BeginVectorized? {
      OpenInterval(markers, k + 1);
    }
  }

  /** Outside of a block, the next interval reaches up to the next block. */
  lemma {:induction false} IntervalsUpToBlock(markers: seq<Strategy>, k: nat, start: nat)
    requires start <= k <= |markers| && WellBracketed(markers) && !InBlock(markers, k)
    ensures var end := NextBlock(markers, k);
      IntervalsFrom(markers, k, false, start)
      == [Interval(start, end)] + if end == |markers| then [] else IntervalsFrom(markers, end + 1, true, start)
    decreases |markers| - k
  {
    if k < |markers| && !markers[k].BeginVectorized? {
      IntervalsUpToBlock(markers, k + 1, start);
    }
  }

  lemma {:induction false} ScheduleOfInterval(ops: seq<Op>, markers: seq<Strategy>, start: nat, end: nat)
    requires start <= end <= |ops| == |markers| && forall j :: start <= j < end ==> !Vectorised(markers, j)
    ensures Schedule(ops, markers, end) == Schedule(ops, markers, start) + CompiledVisits(start, end)
  {
    if start < end {
      ScheduleOfInterval(ops, markers, start, end - 1);
    }
  }

  /** Where a morsel stands before suboperator `k`: `rest` are the intervals that it has not run yet. */
  ghost predicate Standing(markers: seq<Strategy>, k: nat, rest: seq<Interval>)
    requires k <= |markers|
  {
    if InBlock(markers, k) then BehindBlock(markers, k, rest)
    else
      || rest == IntervalsFrom(markers, k, false, k)
      || (if k == |markers| then rest == [] else markers[k].BeginVectorized? && BehindBlock(markers, k + 1, rest))
  }

  ghost predicate BehindBlock(markers: seq<Strategy>, k: nat, rest: seq<Interval>)
    requires k <= |markers|
  {
    exists start: nat {:trigger IntervalsFrom(markers, k, true, start)} ::
      start <= k && rest == IntervalsFrom(markers, k, true, start)
  }

  /** Inside of a block nothing is compiled, up to its end. */
  lemma BlockGoesOn(markers: seq<Strategy>, k: nat, rest: seq<Interval>)
    requires k < |markers| && WellBracketed(markers) && InBlock(markers, k) && BehindBlock(markers, k, rest)
    ensures rest != [] ==> rest[0].start > k
    ensures Standing(markers, k + 1, rest)
  {
    var start: nat :| start <= k && rest == IntervalsFrom(markers, k, true, start);
    LaterIntervals(markers, k, start);
    if !markers[k].EndVectorized? {
      assert rest == IntervalsFrom(markers, k + 1, true, start);
    }
  }

  /** A block begins; the interval before it has been run. */
  lemma BlockBegins(markers: seq<Strategy>, k: nat, rest: seq<Interval>)
    requires k < |markers| && WellBracketed(markers) && markers[k].BeginVectorized? && BehindBlock(markers, k + 1, rest)
    ensures rest != [] ==> rest[0].start > k
    ensures Standing(markers, k + 1, rest)
  {
    var start: nat :| start <= k + 1 && rest == IntervalsFrom(markers, k + 1, true, start);
    LaterIntervals(markers, k + 1, start);
  }

  /** An interval begins here. */
  lemma IntervalBegins(markers: seq<Strategy>, k: nat, rest: seq<Interval>)
    requires k <= |markers| && WellBracketed(markers) && !InBlock(markers, k) && rest == IntervalsFrom(markers, k, false, k)
    ensures rest != [] && rest[0].start == k <= rest[0].end <= |markers|
    ensures forall j :: k <= j < rest[0].end ==> !Vectorised(markers, j)
    ensures Standing(markers, rest[0].end, rest[1..])
  {
    OpenInterval(markers, k);
    IntervalsUpToBlock(markers, k, k);
    var end := NextBlock(markers, k);
    if end < |markers| {
      BlockFollows(markers, k, end);
      BehindInterval(markers, k, end, rest);
    }
  }

  lemma BehindInterval(markers: seq<Strategy>, k: nat, end: nat, rest: seq<Interval>)
    requires k <= end < |markers| && rest == [Interval(k, end)] + IntervalsFrom(markers, end + 1, true, k)
    ensures BehindBlock(markers, end + 1, rest[1..])
  {
    assert rest[1..] == IntervalsFrom(markers, end + 1, true, k);
  }

  lemma {:induction false} BlockFollows(markers: seq<Strategy>, k: nat, end: nat)
    requires k <= |markers| && end == NextBlock(markers, k) < |markers|
    ensures markers[end].BeginVectorized?
    decreases |markers| - k
  {
    if k != end {
      BlockFollows(markers, k + 1, end);
    }
  }

  /** Either the next interval begins here and is outside of all blocks, or the suboperator is vectorised. */
  lemma StandingNext(markers: seq<Strategy>, k: nat, rest: seq<Interval>)
    requires k < |markers| && WellBracketed(markers) && Standing(markers, k, rest)
    ensures rest != [] && rest[0].start == k ==>
      var end := rest[0].end;
      && k <= end <= |markers| && (forall j :: k <= j < end ==> !Vectorised(markers, j)) && Standing(markers, end, rest[1..])
    ensures !(rest != [] && rest[0].start == k) ==> Vectorised(markers, k) && Standing(markers, k + 1, rest)
  {
    if InBlock(markers, k) {
      BlockGoesOn(markers, k, rest);
    } else if rest == IntervalsFrom(markers, k, false, k) {
      IntervalBegins(markers, k, rest);
    } else {
      BlockBegins(markers, k, rest);
    }
  }

  /** The compiled intervals keep strong links together. */
  ghost predicate IntervalsKeepLinks(g: Graph, intervals: seq<Interval>)
    requires WellFormed(g)
  {
    forall i :: 0 <= i < |intervals| ==> KeepsLinksTogether(g, intervals[i].start, intervals[i].end)
  }

  // ---------------------------------------------------------------------------------------------
  // The plan that a morsel follows
  // ---------------------------------------------------------------------------------------------

  /** The segments lie next to each other and reach from the first suboperator up to the `n`-th. */
  predicate Covers(plan: seq<Segment>, n: nat) {
    if plan == [] then n == 0
    else
      var init := plan[..|plan| - 1];
      match plan[|plan| - 1]
      case Jit(start) => start <= n && Covers(init, start)
      case Interpreted => n > 0 && Covers(init, n - 1)
  }

  /** What a plan for the first `n` suboperators runs: compiled ranges, and interpreters where there are any. */
  function Visited(ops: seq<Op>, plan: seq<Segment>, n: nat): seq<Visit>
    requires n <= |ops| && Covers(plan, n)
  {
    if plan == [] then []
    else
      var init := plan[..|plan| - 1];
      match plan[|plan| - 1]
      case Jit(start) => Visited(ops, init, start) + CompiledVisits(start, n)
      case Interpreted => Visited(ops, init, n - 1) + if ops[n - 1].strongOut then [] else [Visit(n - 1, false)]
  }

  /** Suboperator `k` lies in segment `i` of the plan. */
  predicate LiesIn(plan: seq<Segment>, n: nat, i: nat, k: nat)
    requires i < |plan|
  {
    StartOf(plan, n, i) <= k < EndOf(plan, n, i)
  }

  /** The segments that a suboperator lies in are compiled exactly if it is not vectorised. */
  ghost predicate FollowsMarkers(plan: seq<Segment>, n: nat, markers: seq<Strategy>)
    requires n <= |markers|
  {
    forall i, k :: 0 <= i < |plan| && 0 <= k < n && LiesIn(plan, n, i, k) ==> (plan[i].Jit? <==> !Vectorised(markers, k))
  }

  /** Each compiled segment is one of the intervals that were compiled. */
  ghost predicate AreIntervals(plan: seq<Segment>, n: nat, intervals: seq<Interval>) {
    forall i :: 0 <= i < |plan| && plan[i].Jit? ==> IsInterval(intervals, StartOf(plan, n, i), EndOf(plan, n, i))
  }

  predicate IsInterval(intervals: seq<Interval>, start: int, end: int) {
    0 <= start && 0 <= end && Interval(start, end) in intervals
  }

  lemma OneMoreSegment(plan: seq<Segment>, seg: Segment, start: nat, n: nat, i: nat)
    requires i <= |plan| && start <= n
    requires seg == (if seg.Jit? then Jit(start) else Interpreted) && (seg.Interpreted? ==> start == n - 1)
    ensures i == |plan| ==> StartOf(plan + [seg], n, i) == start && EndOf(plan + [seg], n, i) == n
    ensures i < |plan| ==> StartOf(plan + [seg], n, i) == StartOf(plan, start, i)
    ensures i < |plan| ==> EndOf(plan + [seg], n, i) == EndOf(plan, start, i)
  {
    var longer := plan + [seg];
    assert longer[|plan|] == seg && longer[..|longer| - 1] == plan;
    assert EndOf(longer, n, |plan|) == n;
    if i < |plan| {
      RangesOfPrefix(longer, n, i);
    }
  }

  lemma {:induction false} CoversInside(plan: seq<Segment>, n: nat, i: nat)
    requires Covers(plan, n) && i < |plan|
    ensures 0 <= StartOf(plan, n, i) <= EndOf(plan, n, i) <= n
  {
    var last := |plan| - 1;
    assert EndOf(plan, n, last) == n;
    if i < last {
      RangesOfPrefix(plan, n, i);
      CoversInside(plan[..last], StartOf(plan, n, last), i);
    }
  }

  /** Every suboperator lies in some segment. */
  lemma {:induction false} FindSegmentOf(plan: seq<Segment>, n: nat, k: nat) returns (i: nat)
    requires Covers(plan, n) && k < n
    ensures i < |plan| && LiesIn(plan, n, i, k)
  {
    var last := |plan| - 1;
    assert EndOf(plan, n, last) == n;
    if StartOf(plan, n, last) <= k {
      i := last;
    } else {
      i := FindSegmentOf(plan[..last], StartOf(plan, n, last), k);
      RangesOfPrefix(plan, n, i);
    }
  }

  lemma FollowsNext(plan: seq<Segment>, seg: Segment, start: nat, n: nat, markers: seq<Strategy>, intervals: seq<Interval>)
    requires start <= n <= |markers| && Covers(plan, start) && FollowsMarkers(plan, start, markers)
    requires AreIntervals(plan, start, intervals) && (seg.Jit? ==> Interval(start, n) in intervals)
    requires seg == (if seg.Jit? then Jit(start) else Interpreted) && (seg.Interpreted? ==> start == n - 1)
    requires forall k :: start <= k < n ==> (seg.Jit? <==> !Vectorised(markers, k))
    ensures Covers(plan + [seg], n) && FollowsMarkers(plan + [seg], n, markers) && AreIntervals(plan + [seg], n, intervals)
  {
    var longer := plan + [seg];
    assert longer[..|longer| - 1] == plan && longer[|plan|] == seg;
    forall i, k | 0 <= i < |longer| && 0 <= k < n && LiesIn(longer, n, i, k)
      ensures longer[i].Jit? <==> !Vectorised(markers, k)
    {
      OneMoreSegment(plan, seg, start, n, i);
      if i < |plan| {
        CoversInside(plan, start, i);
        assert LiesIn(plan, start, i, k);
      }
    }
    forall i | 0 <= i < |longer| && longer[i].Jit? ensures IsInterval(intervals, StartOf(longer, n, i), EndOf(longer, n, i)) {
      OneMoreSegment(plan, seg, start, n, i);
    }
  }

  /** Where a morsel stands: what it has visited, and the plan that it has followed. */
  ghost predicate Underway(g: Graph, markers: seq<Strategy>, intervals: seq<Interval>, current: nat, visits: seq<Visit>,
                           plan: seq<Segment>)
    requires current <= |g.ops| == |markers|
  {
    && visits == Schedule(g.ops, markers, current)
    && Covers(plan, current) && visits == Visited(g.ops, plan, current) && FollowsMarkers(plan, current, markers)
    && AreIntervals(plan, current, intervals)
  }

  /**
   * Runs one morsel: first the first compiled interval, then whatever comes next. It ends even with empty intervals and visits
   * exactly the suboperators of the schedule, whatever they are. The plan is the one that it follows: its segments run exactly
   * what was visited, and a suboperator lies in compiled segments exactly if it is not vectorised. If strong links are as they
   * should be and lie inside of the intervals, then it is a plan for the whole pipeline.
   */
  method RunRofMorsel(g: Graph, markers: seq<Strategy>, intervals: seq<Interval>, interpreters: seq<nat>,
                      offsets: seq<Option<nat>>) returns (visits: seq<Visit>, plan: seq<Segment>)
    requires |markers| == |g.ops| && WellBracketed(markers)
    requires intervals == CompiledIntervals(markers) && Interpreters(g.ops, |g.ops|, interpreters, offsets)
    ensures visits == Schedule(g.ops, markers, |g.ops|)
    ensures Covers(plan, |g.ops|) && visits == Visited(g.ops, plan, |g.ops|)
    ensures forall i, k :: 0 <= i < |plan| && 0 <= k < |g.ops| && LiesIn(plan, |g.ops|, i, k) ==>
      (plan[i].Jit? <==> !Vectorised(markers, k))
    ensures forall i :: 0 <= i < |plan| && plan[i].Jit? ==>
      IsInterval(intervals, StartOf(plan, |g.ops|, i), EndOf(plan, |g.ops|, i))
    ensures WellFormed(g) && IntervalsKeepLinks(g, intervals) ==> IsPlan(g, plan, |g.ops|)
  {
    FirstInterval(g, markers, intervals);
    visits, plan := CompiledVisits(0, intervals[0].end), [Jit(0)];
    var next: nat, current: nat := 1, intervals[0].end;
    while current < |g.ops|
      invariant next <= |intervals| && current <= |g.ops|
      invariant Standing(markers, current, intervals[next..])
      invariant Underway(g, markers, intervals, current, visits, plan)
      invariant WellFormed(g) && IntervalsKeepLinks(g, intervals) ==> IsPlan(g, plan, current)
      decreases |g.ops| - current + |intervals| - next
    {
      StandingNext(markers, current, intervals[next..]);
      if next < |intervals| && intervals[next].start == current {
        assert intervals[next..][1..] == intervals[next + 1..];
        ExtendCompiled(g, markers, visits, plan, current, intervals, next);
        visits, plan := visits + CompiledVisits(current, intervals[next].end), plan + [Jit(current)];
        current, next := intervals[next].end, next + 1;
      } else {
        ExtendInterpreted(g, markers, intervals, visits, plan, current);
        if offsets[current].Some? {
          visits := visits + [Visit(interpreters[offsets[current].value], false)];
        }
        plan, current := plan + [Interpreted], current + 1;
      }
    }
  }

  lemma FirstInterval(g: Graph, markers: seq<Strategy>, intervals: seq<Interval>)
    requires |markers| == |g.ops| && WellBracketed(markers) && intervals == CompiledIntervals(markers)
    ensures |intervals| > 0 && intervals[0].start == 0 && intervals[0].end <= |markers|
    ensures Underway(g, markers, intervals, intervals[0].end, CompiledVisits(0, intervals[0].end), [Jit(0)])
    ensures Standing(markers, intervals[0].end, intervals[1..])
    ensures WellFormed(g) && IntervalsKeepLinks(g, intervals) ==> IsPlan(g, [Jit(0)], intervals[0].end)
  {
    ClosedAndRemaining(markers, 0);
    assert intervals == IntervalsFrom(markers, 0, false, 0);
    IntervalBegins(markers, 0, intervals);
    var none: seq<Segment> := [];
    assert none + [Jit(0)] == [Jit(0)] && [Jit(0)][..0] == none;
    CompiledUnderway(g, markers, intervals, [], none, 0, intervals[0].end);
  }

  lemma CompiledUnderway(g: Graph, markers: seq<Strategy>, intervals: seq<Interval>, visits: seq<Visit>, plan: seq<Segment>,
                         start: nat, end: nat)
    requires start <= end <= |g.ops| == |markers| && Underway(g, markers, intervals, start, visits, plan)
    requires Interval(start, end) in intervals
    requires forall j :: start <= j < end ==> !Vectorised(markers, j)
    ensures Underway(g, markers, intervals, end, visits + CompiledVisits(start, end), plan + [Jit(start)])
  {
    ScheduleOfInterval(g.ops, markers, start, end);
    FollowsNext(plan, Jit(start), start, end, markers, intervals);
    assert (plan + [Jit(start)])[..|plan|] == plan;
  }

  lemma ExtendCompiled(g: Graph, markers: seq<Strategy>, visits: seq<Visit>, plan: seq<Segment>, current: nat,
                       intervals: seq<Interval>, next: nat)
    requires current <= |g.ops| == |markers| && next < |intervals| && Underway(g, markers, intervals, current, visits, plan)
    requires intervals[next].start == current && current <= intervals[next].end <= |g.ops|
    requires forall j :: current <= j < intervals[next].end ==> !Vectorised(markers, j)
    ensures WellFormed(g) && IntervalsKeepLinks(g, intervals) && IsPlan(g, plan, current) ==>
      IsPlan(g, plan + [Jit(current)], intervals[next].end)
    ensures Underway(g, markers, intervals, intervals[next].end, visits + CompiledVisits(current, intervals[next].end),
                     plan + [Jit(current)])
  {
    assert (plan + [Jit(current)])[..|plan|] == plan;
    CompiledUnderway(g, markers, intervals, visits, plan, current, intervals[next].end);
  }

  lemma ExtendInterpreted(g: Graph, markers: seq<Strategy>, intervals: seq<Interval>, visits: seq<Visit>, plan: seq<Segment>,
                          current: nat)
    requires current < |g.ops| == |markers| && Vectorised(markers, current)
    requires Underway(g, markers, intervals, current, visits, plan)
    ensures WellFormed(g) && IsPlan(g, plan, current) ==> IsPlan(g, plan + [Interpreted], current + 1)
    ensures Underway(g, markers, intervals, current + 1, visits + if g.ops[current].strongOut then [] else [Visit(current, false)],
                     plan + [Interpreted])
  {
    assert (plan + [Interpreted])[..|plan|] == plan;
    FollowsNext(plan, Interpreted, current, current + 1, markers, intervals);
  }

  /**
   * A morsel that relaxed operator fusion sends through the pieces has the effects and columns of the fused pipeline. The pieces
   * are those of the schedule: compiled where nothing is vectorised, and interpreted elsewhere.
   */
  method RunMorselThroughPieces(m: Machine, g: Graph, w: World, markers: seq<Strategy>, ghost pieces: seq<Piece>)
    returns (plan: seq<Segment>)
    requires WellFormed(g) && Faithful(m) && |markers| == |g.ops| && WellBracketed(markers)
    requires IntervalsKeepLinks(g, CompiledIntervals(markers))
    ensures IsPlan(g, plan, |g.ops|)
    ensures Covers(plan, |g.ops|) && Visited(g.ops, plan, |g.ops|) == Schedule(g.ops, markers, |g.ops|)
    ensures forall i, k :: 0 <= i < |plan| && 0 <= k < |g.ops| && LiesIn(plan, |g.ops|, i, k) ==>
      (plan[i].Jit? <==> !Vectorised(markers, k))
    ensures forall i :: 0 <= i < |plan| && plan[i].Jit? ==>
      IsInterval(CompiledIntervals(markers), StartOf(plan, |g.ops|, i), EndOf(plan, |g.ops|, i))
    ensures ArePieces(g, plan, pieces, |g.ops|) ==>
      var end, whole := RunPlan(m, g, plan, pieces, |g.ops|, State(map[], w)), Whole(m, g, |g.ops|, w);
      && end.world == whole.world
      && forall v :: v in end.columns ==> v in whole.columns && end.columns[v] == whole.columns[v]
  {
    var intervals := SetUpFused(markers);
    var interpreters, offsets := SetUpInterpreted(g.ops);
    var visits;
    visits, plan := RunRofMorsel(g, markers, intervals, interpreters, offsets);
    if ArePieces(g, plan, pieces, |g.ops|) {
      CuttingPreservesMeaning(m, g, w, plan, pieces);
    }
  }
}
