/**
 * The hand-over from interpretation to compiled code in hybrid execution: worker threads interpret morsels until the
 * background compiler is done or the work runs out, meet in a barrier whose last arrival sets the compiled code up, and
 * then use either backend for every further morsel.
 */
module HybridBarrier {
  import opened Bags

  /**
   * Where a thread is: before an interpreted morsel, between the morsel and the look at the compile state, before the
   * barrier, inside of it as a waiter or as the last arrival with the barrier's lock, behind it, or finished.
   */
  datatype Pc = Interpret | Look | Arrive | Waiting | LastArrival | Work | Done

  datatype Thread = Thread(pc: Pc, terminate: bool)

  /**
   * What the threads share. `lock` says that the barrier's mutex is held between two steps. `executed` counts morsels, and
   * `fused` those among them that compiled code ran; `early` would record a compiled morsel before the set-up, and `underflow`
   * an arrival at a counter of zero.
   */
  datatype Shared = Shared(morsels: nat, executed: nat, fused: nat, compiled: bool, pending: nat, lock: bool, onceRan: bool,
                           setUps: nat, early: bool, underflow: bool)

  datatype State = State(threads: seq<Thread>, shared: Shared)

  /**
   * The next step is taken by the background compiler or by a thread. For a thread behind the barrier, `compiledCode` picks
   * the backend; `closed` lets a morsel report the end of the output.
   */
  datatype Action = Compile | Move(thread: nat, compiledCode: bool, closed: bool)

  /** Picks a morsel and runs it, or finds that there is none. The result is the new value of `terminate`. */
  function RunMorsel(g: Shared, compiledCode: bool, closed: bool): (Shared, bool) {
    if g.morsels == 0 then (g, true)
    else
      var fused := if compiledCode then g.fused + 1 else g.fused;
      (g.(morsels := g.morsels - 1, executed := g.executed + 1, fused := fused), closed)
  }

  function Act(me: Thread, g: Shared, compiledCode: bool, closed: bool): (Thread, Shared) {
    match me.pc
    case Interpret =>
      var (g', terminate) := RunMorsel(g, false, closed);
      (Thread(Look, terminate), g')
    case Look =>
      (me.(pc := if g.compiled || me.terminate then Arrive else Interpret), g)
    case Arrive =>
      if g.lock then (me, g)
      else if g.pending == 0 then (me, g.(underflow := true))
      else if g.pending == 1 then (me.(pc := LastArrival), g.(pending := 0, lock := true))
      else (me.(pc := Waiting), g.(pending := g.pending - 1))
    case LastArrival =>
      (me.(pc := Work), g.(lock := false, onceRan := true, setUps := if g.compiled then g.setUps + 1 else g.setUps))
    case Waiting =>
      if g.lock || g.pending > 0 then (me, g) else (me.(pc := Work), g)
    case Work =>
      if me.terminate then (me.(pc := Done), g)
      else
        var (g', terminate) := RunMorsel(g.(early := g.early || (compiledCode && g.setUps == 0)), compiledCode, closed);
        (me.(terminate := terminate), g')
    case Done => (me, g)
  }

  function MoveThread(s: State, t: nat, compiledCode: bool, closed: bool): State
    requires t < |s.threads|
  {
    var (me, g) := Act(s.threads[t], s.shared, compiledCode, closed);
    State(s.threads[t := me], g)
  }

  function Step(s: State, a: Action): State {
    match a
    case Compile => s.(shared := s.shared.(compiled := true))
    case Move(t, compiledCode, closed) => if t < |s.threads| then MoveThread(s, t, compiledCode, closed) else s
  }

  function Run(s: State, schedule: seq<Action>): State {
    if schedule == [] then s else Step(Run(s, schedule[..|schedule| - 1]), schedule[|schedule| - 1])
  }

  ghost predicate Initial(s: State) {
    && |s.threads| > 0 && s.shared.pending == |s.threads|
    && (forall t :: 0 <= t < |s.threads| ==> s.threads[t] == Thread(Interpret, false))
    && s.shared == Shared(s.shared.morsels, 0, 0, false, |s.threads|, false, false, 0, false, false)
  }

  // ---------------------------------------------------------------------------------------------
  // Safety
  // ---------------------------------------------------------------------------------------------

  /** Threads that have arrived at the barrier weigh one. */
  function Arrived(): Thread -> nat {
    (me: Thread) => if me.pc.Interpret? || me.pc.Look? || me.pc.Arrive? then 0 else 1
  }

  /** The last arrival until it leaves weighs one. */
  function Holding(): Thread -> nat {
    (me: Thread) => if me.pc.LastArrival? then 1 else 0
  }

  ghost predicate ThreadOk(g: Shared, me: Thread) {
    && (me.pc.Work? || me.pc.Done? ==> g.onceRan)
    && (me.pc.LastArrival? ==> !g.onceRan)
    // Only compiled code lets a thread leave the interpreter while there is work to do.
    && (!me.pc.Interpret? && !me.pc.Look? && !me.terminate ==> g.compiled)
    && (me.pc.Done? ==> me.terminate)
    && (g.onceRan && !me.terminate ==> g.setUps == 1)
  }

  ghost predicate SharedOk(g: Shared) {
    && (g.lock ==> g.pending == 0)
    && (g.onceRan ==> g.pending == 0 && !g.lock)
    && (g.pending == 0 ==> g.lock || g.onceRan)
    && g.setUps <= (if g.onceRan then 1 else 0)
    && (g.setUps == 1 ==> g.compiled)
    && !g.early && !g.underflow
  }

  ghost predicate Inv(s: State) {
    && SharedOk(s.shared)
    && s.shared.pending + Total(s.threads, Arrived()) == |s.threads|
    && Total(s.threads, Holding()) == (if s.shared.lock then 1 else 0)
    && forall t :: 0 <= t < |s.threads| ==> ThreadOk(s.shared, s.threads[t])
  }

  lemma InitialInv(s: State)
    requires Initial(s)
    ensures Inv(s)
  {
    TotalZero(s.threads, Arrived());
    TotalZero(s.threads, Holding());
  }

  /** Nobody is still on the way once the counter is down. */
  lemma {:induction false} AllArrived(threads: seq<Thread>, t: nat)
    requires Total(threads, Arrived()) == |threads| && t < |threads|
    ensures Arrived()(threads[t]) == 1
  {
    ArrivedAtMost(threads[1..]);
    if t > 0 {
      AllArrived(threads[1..], t - 1);
    }
  }

  lemma {:induction false} ArrivedAtMost(threads: seq<Thread>)
    ensures Total(threads, Arrived()) <= |threads|
  {
    if threads != [] {
      ArrivedAtMost(threads[1..]);
    }
  }

  /** A thread that is still on the way keeps the counter up. */
  lemma {:induction false} OneMissing(threads: seq<Thread>, t: nat)
    requires t < |threads| && Arrived()(threads[t]) == 0
    ensures Total(threads, Arrived()) < |threads|
  {
    if t == 0 {
      ArrivedAtMost(threads[1..]);
    } else {
      OneMissing(threads[1..], t - 1);
    }
  }

  lemma {:induction false} TotalPositive(threads: seq<Thread>, f: Thread -> nat, t: nat)
    requires t < |threads|
    ensures Total(threads, f) >= f(threads[t])
  {
    if t > 0 {
      TotalPositive(threads[1..], f, t - 1);
    }
  }

  /** One step on its own keeps the shared state and the thread in order, and the counters in step with the thread. */
  lemma ActKeeps(me: Thread, g: Shared, compiledCode: bool, closed: bool)
    requires SharedOk(g) && ThreadOk(g, me)
    requires Arrived()(me) == 0 ==> g.pending > 0
    requires me.pc.LastArrival? ==> g.lock
    ensures var (me', g') := Act(me, g, compiledCode, closed);
      && SharedOk(g') && ThreadOk(g', me')
      && g'.pending + Arrived()(me') == g.pending + Arrived()(me)
      && Holding()(me') + (if g.lock then 1 else 0) == Holding()(me) + (if g'.lock then 1 else 0)
      && g'.compiled == g.compiled
      && (!me.pc.LastArrival? ==> g'.onceRan == g.onceRan && g'.setUps == g.setUps)
      && (me.pc.LastArrival? ==> g'.onceRan && g'.setUps == if g.compiled then 1 else 0)
  {
  }

  lemma MoveKeepsInv(s: State, t: nat, compiledCode: bool, closed: bool)
    requires Inv(s) && t < |s.threads|
    ensures Inv(MoveThread(s, t, compiledCode, closed))
  {
    var me, s' := s.threads[t], MoveThread(s, t, compiledCode, closed);
    TotalPositive(s.threads, Holding(), t);
    if Arrived()(me) == 0 {
      OneMissing(s.threads, t);
    }
    ActKeeps(me, s.shared, compiledCode, closed);
    TotalUpdate(s.threads, Arrived(), t, s'.threads[t]);
    TotalUpdate(s.threads, Holding(), t, s'.threads[t]);
    forall u | 0 <= u < |s.threads| ensures ThreadOk(s'.shared, s'.threads[u]) {
      assert ThreadOk(s.shared, s.threads[u]);
      if me.pc.LastArrival? {
        AllArrived(s.threads, u);
        TotalPositive(s'.threads, Holding(), u);
      }
    }
  }

  lemma {:induction false} RunKeepsInv(s: State, schedule: seq<Action>)
    requires Inv(s)
    ensures Inv(Run(s, schedule))
  {
    if schedule != [] {
      var before, a := Run(s, schedule[..|schedule| - 1]), schedule[|schedule| - 1];
      RunKeepsInv(s, schedule[..|schedule| - 1]);
      match a
      case Move(t, compiledCode, closed) =>
        if t < |before.threads| {
          MoveKeepsInv(before, t, compiledCode, closed);
        }
      case Compile =>
        forall u | 0 <= u < |before.threads| ensures ThreadOk(Step(before, a).shared, before.threads[u]) {
          assert ThreadOk(before.shared, before.threads[u]);
        }
    }
  }

  ghost predicate InsideBarrier(me: Thread) {
    me.pc.Waiting? || me.pc.LastArrival?
  }

  /**
   * Main theorem: whatever the interleaving, compiled code is set up at most once, no compiled morsel runs before it, and
   * the arrival counter never underflows.
   */
  lemma HandOverIsSafe(s: State, schedule: seq<Action>)
    requires Initial(s)
    ensures var end := Run(s, schedule).shared; end.setUps <= 1 && !end.early && !end.underflow
  {
    InitialInv(s);
    RunKeepsInv(s, schedule);
  }

  /** And when it is set up, every thread is inside of the barrier. */
  lemma SetUpIsExclusive(s: State, schedule: seq<Action>, a: Action)
    requires Initial(s) && Step(Run(s, schedule), a).shared.setUps != Run(s, schedule).shared.setUps
    ensures forall t :: 0 <= t < |Run(s, schedule).threads| ==> InsideBarrier(Run(s, schedule).threads[t])
  {
    InitialInv(s);
    RunKeepsInv(s, schedule);
    var now := Run(s, schedule);
    assert ThreadOk(now.shared, now.threads[a.thread]);
    TotalPositive(now.threads, Holding(), a.thread);
    forall t | 0 <= t < |now.threads| ensures InsideBarrier(now.threads[t]) {
      AllArrived(now.threads, t);
      assert ThreadOk(now.shared, now.threads[t]);
    }
  }

  /** No morsel is lost or counted twice by a step of any backend. */
  lemma {:induction false} MorselsAreConserved(s: State, schedule: seq<Action>)
    ensures Worth(Run(s, schedule)) == Worth(s)
    ensures |Run(s, schedule).threads| == |s.threads|
  {
    if schedule != [] {
      MorselsAreConserved(s, schedule[..|schedule| - 1]);
      StepConserves(Run(s, schedule[..|schedule| - 1]), schedule[|schedule| - 1]);
    }
  }

  lemma StepConserves(s: State, a: Action)
    ensures Worth(Step(s, a)) == Worth(s) && |Step(s, a).threads| == |s.threads|
  {
    match a
    case Compile =>
    case Move(t, compiledCode, closed) =>
      if t < |s.threads| {
        ActConserves(s.threads[t], s.shared, compiledCode, closed);
      }
  }

  lemma ActConserves(me: Thread, g: Shared, compiledCode: bool, closed: bool)
    ensures var g' := Act(me, g, compiledCode, closed).1; g'.executed + g'.morsels == g.executed + g.morsels
  {
    if me.pc.Work? && !me.terminate {
      var ready := g.(early := g.early || (compiledCode && g.setUps == 0));
      assert Act(me, g, compiledCode, closed).1 == RunMorsel(ready, compiledCode, closed).0;
      MorselConserved(ready, compiledCode, closed);
    } else if me.pc.Interpret? {
      assert Act(me, g, compiledCode, closed).1 == RunMorsel(g, false, closed).0;
      MorselConserved(g, false, closed);
    }
  }

  lemma MorselConserved(g: Shared, compiledCode: bool, closed: bool)
    ensures var g' := RunMorsel(g, compiledCode, closed).0; g'.executed + g'.morsels == g.executed + g.morsels
  {
  }

  /** Morsels that were run and morsels that are left. */
  function Worth(s: State): nat {
    s.shared.executed + s.shared.morsels
  }

  /** No morsel closes the output before its end. */
  predicate StaysOpen(schedule: seq<Action>) {
    forall i :: 0 <= i < |schedule| && schedule[i].Move? ==> !schedule[i].closed
  }

  /** A thread stops only when the morsels have run out. */
  ghost predicate StopsAtEnd(s: State) {
    forall t :: 0 <= t < |s.threads| && s.threads[t].terminate ==> s.shared.morsels == 0
  }

  lemma {:induction false} RunStopsAtEnd(s: State, schedule: seq<Action>)
    requires StopsAtEnd(s) && StaysOpen(schedule)
    ensures StopsAtEnd(Run(s, schedule))
  {
    if schedule != [] {
      var init, a := schedule[..|schedule| - 1], schedule[|schedule| - 1];
      assert StaysOpen(init);
      RunStopsAtEnd(s, init);
      if a.Move? && a.thread < |Run(s, init).threads| {
        MoveStopsAtEnd(Run(s, init), a.thread, a.compiledCode);
      }
    }
  }

  lemma MoveStopsAtEnd(s: State, t: nat, compiledCode: bool)
    requires StopsAtEnd(s) && t < |s.threads|
    ensures StopsAtEnd(MoveThread(s, t, compiledCode, false))
  {
    var s' := MoveThread(s, t, compiledCode, false);
    assert s.shared.morsels == 0 ==> s'.shared.morsels == 0;
    forall u | 0 <= u < |s'.threads| && s'.threads[u].terminate ensures s'.shared.morsels == 0 {
      if u != t {
        assert s'.threads[u] == s.threads[u];
      }
    }
  }

  /**
   * Main theorem: if no morsel closes the output early, then once all threads are finished, whatever the interleaving and
   * whenever the backends changed, all morsels have been run, each once.
   */
  lemma AllWorkIsDone(s: State, schedule: seq<Action>)
    requires Initial(s) && StaysOpen(schedule) && AllDone(Run(s, schedule))
    ensures Run(s, schedule).shared.morsels == 0 && Run(s, schedule).shared.executed == s.shared.morsels
  {
    InitialInv(s);
    RunKeepsInv(s, schedule);
    RunStopsAtEnd(s, schedule);
    MorselsAreConserved(s, schedule);
    var end := Run(s, schedule);
    assert ThreadOk(end.shared, end.threads[0]);
  }

  // ---------------------------------------------------------------------------------------------
  // The hand-over happens
  // ---------------------------------------------------------------------------------------------

  /** Action `i` of a schedule is one of thread `t`. */
  predicate MovesAt(schedule: seq<Action>, i: nat, t: nat) {
    i < |schedule| && schedule[i].Move? && schedule[i].thread == t
  }

  /** It runs a morsel, and the thread has not passed the barrier yet. */
  ghost predicate MorselInFront(s: State, schedule: seq<Action>, i: nat, t: nat) {
    && MovesAt(schedule, i, t)
    && t < |Run(s, schedule[..i]).threads| && !Passed(Run(s, schedule[..i]).threads[t])
    && Run(s, schedule[..i + 1]).shared.executed != Run(s, schedule[..i]).shared.executed
  }

  predicate OnTheWay(me: Thread) {
    !me.pc.Interpret? && !me.pc.Look?
  }

  predicate Passed(me: Thread) {
    me.pc.Work? || me.pc.Done?
  }

  lemma NextRun(s: State, schedule: seq<Action>, i: nat)
    requires i < |schedule|
    ensures Run(s, schedule[..i + 1]) == Step(Run(s, schedule[..i]), schedule[i])
  {
    assert schedule[..i + 1][..i] == schedule[..i];
  }

  lemma ActShape(me: Thread, g: Shared, compiledCode: bool, closed: bool)
    ensures var (me', g') := Act(me, g, compiledCode, closed);
      && g'.compiled == g.compiled && (g.onceRan ==> g'.onceRan)
      && (Passed(me) ==> Passed(me'))
      && (!me.pc.LastArrival? ==> g'.setUps == g.setUps && g'.onceRan == g.onceRan)
  {
    match me.pc
    case Interpret =>
    case Look =>
    case Arrive =>
    case LastArrival =>
    case Waiting =>
    case Work =>
    case Done =>
  }

  /** What every step leaves alone, or only ever raises. */
  ghost predicate Follows(before: State, a: Action, after: State) {
    && |after.threads| == |before.threads|
    && after.shared.compiled == (before.shared.compiled || a == Compile)
    && (before.shared.onceRan ==> after.shared.onceRan)
  }

  lemma StepFollows(s: State, a: Action)
    ensures Follows(s, a, Step(s, a))
  {
    if a.Move? && a.thread < |s.threads| {
      ActShape(s.threads[a.thread], s.shared, a.compiledCode, a.closed);
    }
  }

  /** The states of a run. */
  ghost function States(s: State, schedule: seq<Action>): (states: seq<State>)
    ensures |states| == |schedule| + 1
    ensures forall i :: 0 <= i <= |schedule| ==> states[i] == Run(s, schedule[..i])
  {
    seq(|schedule| + 1, i requires 0 <= i <= |schedule| => Run(s, schedule[..i]))
  }

  lemma {:induction false} StatesFollow(states: seq<State>, schedule: seq<Action>, i: nat, j: nat)
    requires |states| == |schedule| + 1 && i <= j < |states|
    requires forall k :: 0 <= k < |schedule| ==> Follows(states[k], schedule[k], states[k + 1])
    ensures |states[i].threads| == |states[j].threads|
    ensures states[j].shared.compiled == (states[i].shared.compiled || exists k :: i <= k < j && schedule[k] == Compile)
    ensures states[i].shared.onceRan ==> states[j].shared.onceRan
  {
    if i < j {
      StatesFollow(states, schedule, i, j - 1);
      assert Follows(states[j - 1], schedule[j - 1], states[j - 1 + 1]);
    }
  }

  /** The compile state is up to date, once up it stays up, and so does the flag of the barrier. */
  lemma RunShape(s: State, schedule: seq<Action>, i: nat, j: nat)
    requires i <= j <= |schedule|
    ensures |Run(s, schedule[..i]).threads| == |Run(s, schedule[..j]).threads| == |s.threads|
    ensures Run(s, schedule[..j]).shared.compiled
         == (Run(s, schedule[..i]).shared.compiled || exists k :: i <= k < j && schedule[k] == Compile)
    ensures Run(s, schedule[..i]).shared.onceRan ==> Run(s, schedule[..j]).shared.onceRan
  {
    var states := States(s, schedule);
    forall k | 0 <= k < |schedule| ensures Follows(states[k], schedule[k], states[k + 1]) {
      NextRun(s, schedule, k);
      StepFollows(states[k], schedule[k]);
    }
    StatesFollow(states, schedule, i, j);
    StatesFollow(states, schedule, 0, i);
    assert states[0] == s && states[i] == Run(s, schedule[..i]) && states[j] == Run(s, schedule[..j]);
  }

  /** With compiled code ready, nobody goes back to the interpreter, and a look at the compile state sends to the barrier. */
  ghost predicate GoesOn(before: State, a: Action, t: nat, after: State)
    requires t < |before.threads| && t < |after.threads|
  {
    before.shared.compiled && !before.threads[t].pc.Interpret? ==>
      && after.shared.compiled && !after.threads[t].pc.Interpret?
      && (OnTheWay(before.threads[t]) || (a.Move? && a.thread == t) ==> OnTheWay(after.threads[t]))
  }

  lemma StepGoesOn(s: State, a: Action, t: nat)
    requires t < |s.threads|
    ensures t < |Step(s, a).threads| && GoesOn(s, a, t, Step(s, a))
  {
    StepFollows(s, a);
  }

  lemma {:induction false} StatesGoOn(states: seq<State>, schedule: seq<Action>, i: nat, j: nat, t: nat)
    requires |states| == |schedule| + 1 && i <= j < |states| && forall k :: 0 <= k < |states| ==> t < |states[k].threads|
    requires forall k :: 0 <= k < |schedule| ==> GoesOn(states[k], schedule[k], t, states[k + 1])
    requires states[i].shared.compiled && !states[i].threads[t].pc.Interpret?
    ensures states[j].shared.compiled && !states[j].threads[t].pc.Interpret?
    ensures OnTheWay(states[i].threads[t]) || (exists k :: i <= k < j && MovesAt(schedule, k, t)) ==>
      OnTheWay(states[j].threads[t])
  {
    if i < j {
      StatesGoOn(states, schedule, i, j - 1, t);
      assert GoesOn(states[j - 1], schedule[j - 1], t, states[j - 1 + 1]);
    }
  }

  /**
   * Main theorem: a thread that looks at the compile state when the compiler has finished does not interpret again in front of
   * the barrier, and after its next move it is on its way to the barrier for good.
   */
  lemma CompiledIsNoticed(s: State, schedule: seq<Action>, i: nat, j: nat, t: nat)
    requires i <= j <= |schedule| && t < |s.threads| && t < |Run(s, schedule[..i]).threads|
    requires Run(s, schedule[..i]).shared.compiled && !Run(s, schedule[..i]).threads[t].pc.Interpret?
    ensures t < |Run(s, schedule[..j]).threads| && !Run(s, schedule[..j]).threads[t].pc.Interpret?
    ensures OnTheWay(Run(s, schedule[..i]).threads[t]) || (exists k :: i <= k < j && MovesAt(schedule, k, t)) ==>
      OnTheWay(Run(s, schedule[..j]).threads[t])
  {
    var states := States(s, schedule);
    forall k | 0 <= k < |states| ensures t < |states[k].threads| {
      RunShape(s, schedule, 0, k);
    }
    forall k | 0 <= k < |schedule| ensures GoesOn(states[k], schedule[k], t, states[k + 1]) {
      NextRun(s, schedule, k);
      StepGoesOn(states[k], schedule[k], t);
    }
    assert states[i] == Run(s, schedule[..i]) && states[j] == Run(s, schedule[..j]);
    StatesGoOn(states, schedule, i, j, t);
  }

  /** Main theorem: behind the end of the compilation, each thread runs at most one more morsel in front of the barrier. */
  lemma OneMoreMorsel(s: State, schedule: seq<Action>, c: nat, i: nat, j: nat, t: nat)
    requires c < i < j < |schedule| && schedule[c] == Compile && t < |s.threads|
    requires MorselInFront(s, schedule, i, t)
    ensures !MorselInFront(s, schedule, j, t)
  {
    RunShape(s, schedule, 0, i);
    RunShape(s, schedule, 0, i + 1);
    NextRun(s, schedule, i);
    NextRun(s, schedule, j);
    LooksNext(Run(s, schedule[..i]), schedule[i], t);
    CompiledIsNoticed(s, schedule, i + 1, j, t);
    if MorselInFront(s, schedule, j, t) {
      LooksNext(Run(s, schedule[..j]), schedule[j], t);
    }
  }

  lemma LooksNext(s: State, a: Action, t: nat)
    requires a.Move? && a.thread == t < |s.threads| && !Passed(s.threads[t])
    requires Step(s, a).shared.executed != s.shared.executed
    ensures s.threads[t].pc.Interpret? && Step(s, a).threads[t].pc.Look? && Step(s, a).shared.fused == s.shared.fused
  {
  }

  /** Only then does a thread leave the interpreter while there is work to do. */
  lemma LeavesForCompiledCode(s: State, schedule: seq<Action>, t: nat)
    requires Initial(s) && t < |Run(s, schedule).threads| && OnTheWay(Run(s, schedule).threads[t])
    ensures Run(s, schedule).threads[t].terminate || Compile in schedule
  {
    InitialInv(s);
    RunKeepsInv(s, schedule);
    assert ThreadOk(Run(s, schedule).shared, Run(s, schedule).threads[t]);
    RunShape(s, schedule, 0, |schedule|);
    assert schedule[..|schedule|] == schedule && schedule[..0] == [];
  }

  /** The compiler has finished while nobody had passed the barrier yet. */
  ghost predicate ReadyInTime(s: State, schedule: seq<Action>) {
    exists i :: 0 <= i < |schedule| && schedule[i] == Compile && NobodyPassed(Run(s, schedule[..i]))
  }

  ghost predicate NobodyPassed(s: State) {
    forall t :: 0 <= t < |s.threads| ==> !Passed(s.threads[t])
  }

  /**
   * Main theorem: as soon as a thread has passed the barrier, the compiled code has been set up once if the compiler had
   * finished in time, and never otherwise.
   */
  lemma SetUpIffReady(s: State, schedule: seq<Action>)
    requires Initial(s) && !NobodyPassed(Run(s, schedule))
    ensures Run(s, schedule).shared.setUps == if ReadyInTime(s, schedule) then 1 else 0
  {
    InitialInv(s);
    RunKeepsInv(s, schedule);
    var t :| 0 <= t < |Run(s, schedule).threads| && Passed(Run(s, schedule).threads[t]);
    assert ThreadOk(Run(s, schedule).shared, Run(s, schedule).threads[t]);
    SetUpsAre(s, schedule);
  }

  lemma {:induction false} SetUpsAre(s: State, schedule: seq<Action>)
    requires Initial(s)
    ensures var g := Run(s, schedule).shared; g.setUps == if g.onceRan && ReadyInTime(s, schedule) then 1 else 0
    ensures Run(s, schedule).shared.onceRan ==> !NobodyPassed(Run(s, schedule))
  {
    if schedule != [] {
      var n := |schedule| - 1;
      var init, a := schedule[..n], schedule[n];
      InitialInv(s);
      RunKeepsInv(s, init);
      SetUpsAre(s, init);
      ReadyNext(s, init, a);
      assert schedule == init + [a];
      var before := Run(s, init);
      if a.Move? && a.thread < |before.threads| {
        if before.threads[a.thread].pc.LastArrival? {
          assert ThreadOk(before.shared, before.threads[a.thread]);
          NotYetOnce(s, init);
          assert Passed(Step(before, a).threads[a.thread]);
        } else {
          OthersLeaveSetUp(before, a);
        }
      }
    }
  }

  lemma ReadyNext(s: State, init: seq<Action>, a: Action)
    ensures ReadyInTime(s, init + [a]) == (ReadyInTime(s, init) || (a == Compile && NobodyPassed(Run(s, init))))
  {
    var schedule := init + [a];
    assert schedule[..|init|] == init;
    forall i | 0 <= i < |init| ensures schedule[i] == init[i] && schedule[..i] == init[..i] {
    }
    if ReadyInTime(s, init) {
      var i :| 0 <= i < |init| && init[i] == Compile && NobodyPassed(Run(s, init[..i]));
      assert schedule[i] == Compile && NobodyPassed(Run(s, schedule[..i]));
    }
    if a == Compile && NobodyPassed(Run(s, init)) {
      assert schedule[|init|] == Compile;
    }
    if ReadyInTime(s, schedule) {
      var i :| 0 <= i < |schedule| && schedule[i] == Compile && NobodyPassed(Run(s, schedule[..i]));
      if i < |init| {
        assert init[i] == Compile && NobodyPassed(Run(s, init[..i]));
      }
    }
  }

  /** Until the last arrival leaves, nobody has ever passed, so that a finished compiler has finished in time. */
  lemma NotYetOnce(s: State, schedule: seq<Action>)
    requires Initial(s) && !Run(s, schedule).shared.onceRan
    ensures ReadyInTime(s, schedule) == Run(s, schedule).shared.compiled
  {
    InitialInv(s);
    var n := |schedule|;
    assert schedule[..n] == schedule && schedule[..0] == [];
    RunShape(s, schedule, 0, n);
    forall i, t | 0 <= i < n && 0 <= t < |Run(s, schedule[..i]).threads| ensures !Passed(Run(s, schedule[..i]).threads[t]) {
      RunKeepsInv(s, schedule[..i]);
      RunShape(s, schedule, i, n);
      assert ThreadOk(Run(s, schedule[..i]).shared, Run(s, schedule[..i]).threads[t]);
    }
  }

  lemma OthersLeaveSetUp(s: State, a: Action)
    requires a.Move? && a.thread < |s.threads| && !s.threads[a.thread].pc.LastArrival?
    ensures Step(s, a).shared.setUps == s.shared.setUps && Step(s, a).shared.onceRan == s.shared.onceRan
    ensures !NobodyPassed(s) ==> !NobodyPassed(Step(s, a))
  {
    ActShape(s.threads[a.thread], s.shared, a.compiledCode, a.closed);
    if t :| 0 <= t < |s.threads| && Passed(s.threads[t]) {
      assert Passed(Step(s, a).threads[t]);
    }
  }

  /** Behind the barrier a thread with work to do runs the next morsel with the backend that it chooses. */
  lemma ChosenBackendRuns(s: State, schedule: seq<Action>, t: nat, compiledCode: bool, closed: bool)
    requires t < |Run(s, schedule).threads| && Run(s, schedule).threads[t] == Thread(Work, false)
    requires Run(s, schedule).shared.morsels > 0
    ensures var before, after := Run(s, schedule).shared, Run(s, schedule + [Move(t, compiledCode, closed)]).shared;
      && after.morsels == before.morsels - 1
      && after.fused == before.fused + (if compiledCode then 1 else 0)
      && after.executed - after.fused == before.executed - before.fused + (if compiledCode then 0 else 1)
  {
    assert (schedule + [Move(t, compiledCode, closed)])[..|schedule|] == schedule;
  }

  // ---------------------------------------------------------------------------------------------
  // Progress
  // ---------------------------------------------------------------------------------------------

  /** A thread that can take a step: it is not finished and not blocked. */
  predicate Enabled(s: State, t: nat)
    requires t < |s.threads|
  {
    match s.threads[t].pc
    case Done => false
    case Arrive => !s.shared.lock
    case Waiting => !s.shared.lock && s.shared.pending == 0
    case _ => true
  }

  /** How many steps a thread may still need, apart from those that each take a morsel. */
  function Rank(): Thread -> nat {
    (me: Thread) =>
      match me.pc
      case Interpret => 6
      case Look => if me.terminate then 5 else 7
      case Arrive => 4
      case Waiting => 3
      case LastArrival => 3
      case Work => if me.terminate then 1 else 2
      case Done => 0
  }

  function Measure(s: State): nat {
    2 * s.shared.morsels + Total(s.threads, Rank())
  }

  lemma StepUsesMeasure(s: State, t: nat, compiledCode: bool, closed: bool)
    requires Inv(s) && t < |s.threads| && Enabled(s, t)
    ensures Measure(MoveThread(s, t, compiledCode, closed)) < Measure(s)
  {
    var s' := MoveThread(s, t, compiledCode, closed);
    if s.threads[t].pc.Arrive? {
      OneMissing(s.threads, t);
    }
    TotalUpdate(s.threads, Rank(), t, s'.threads[t]);
  }

  ghost predicate AllDone(s: State) {
    forall t :: 0 <= t < |s.threads| ==> s.threads[t].pc.Done?
  }

  /** No deadlock: as long as somebody is not finished, somebody can go on. */
  lemma SomebodyCanGoOn(s: State) returns (t: nat)
    requires Inv(s) && !AllDone(s)
    ensures t < |s.threads| && Enabled(s, t)
  {
    if s.shared.lock {
      t := FindThread(s.threads, Holding());
    } else if s.shared.pending > 0 {
      t := FindMissing(s.threads);
    } else {
      t :| 0 <= t < |s.threads| && !s.threads[t].pc.Done?;
    }
  }

  lemma {:induction false} FindThread(threads: seq<Thread>, f: Thread -> nat) returns (t: nat)
    requires Total(threads, f) > 0
    ensures t < |threads| && f(threads[t]) > 0
  {
    if f(threads[0]) > 0 {
      t := 0;
    } else {
      t := FindThread(threads[1..], f);
      t := t + 1;
    }
  }

  lemma {:induction false} FindMissing(threads: seq<Thread>) returns (t: nat)
    requires Total(threads, Arrived()) < |threads|
    ensures t < |threads| && Arrived()(threads[t]) == 0
  {
    if Arrived()(threads[0]) == 0 {
      t := 0;
    } else {
      t := FindMissing(threads[1..]);
      t := t + 1;
    }
  }

  /** Every move is one of an unblocked thread. The background compiler may finish at any time, or never. */
  ghost predicate Effective(s: State, schedule: seq<Action>) {
    forall i :: 0 <= i < |schedule| ==> ActionCounts(Run(s, schedule[..i]), schedule[i])
  }

  predicate ActionCounts(now: State, a: Action) {
    a.Move? ==> a.thread < |now.threads| && Enabled(now, a.thread)
  }

  /** The steps of threads in a schedule. */
  function Moves(schedule: seq<Action>): (n: nat)
    ensures n <= |schedule|
  {
    if schedule == [] then 0
    else Moves(schedule[..|schedule| - 1]) + if schedule[|schedule| - 1].Move? then 1 else 0
  }

  lemma {:induction false} EffectiveRunsShrink(s: State, schedule: seq<Action>)
    requires Inv(s) && Effective(s, schedule)
    ensures Measure(Run(s, schedule)) + Moves(schedule) <= Measure(s)
  {
    if schedule != [] {
      var init, a := schedule[..|schedule| - 1], schedule[|schedule| - 1];
      forall i | 0 <= i < |init| ensures init[..i] == schedule[..i] {
      }
      assert forall i :: 0 <= i < |init| ==> ActionCounts(Run(s, init[..i]), init[i]);
      EffectiveRunsShrink(s, init);
      RunKeepsInv(s, init);
      assert ActionCounts(Run(s, init), a);
      if a.Move? {
        StepUsesMeasure(Run(s, init), a.thread, a.compiledCode, a.closed);
      }
    }
  }

  /**
   * Everybody is released, whether and whenever the compiler finishes: after at most as many moves as the measure says there
   * is nobody left who could move, and then all threads have passed the barrier and finished.
   */
  lemma HandOverEnds(s: State, schedule: seq<Action>)
    requires Initial(s) && Effective(s, schedule)
    ensures Moves(schedule) <= 2 * s.shared.morsels + 6 * |s.threads|
    ensures var end := Run(s, schedule);
      (forall t :: 0 <= t < |end.threads| ==> !Enabled(end, t)) ==> AllDone(end) && end.shared.onceRan
  {
    InitialInv(s);
    RunKeepsInv(s, schedule);
    EffectiveRunsShrink(s, schedule);
    RankOfFresh(s.threads);
    MorselsAreConserved(s, schedule);
    var end := Run(s, schedule);
    if forall t :: 0 <= t < |end.threads| ==> !Enabled(end, t) {
      if !AllDone(end) {
        var t := SomebodyCanGoOn(end);
        assert false;
      }
      assert ThreadOk(end.shared, end.threads[0]);
    }
  }

  lemma {:induction false} RankOfFresh(threads: seq<Thread>)
    requires forall t :: 0 <= t < |threads| ==> threads[t] == Thread(Interpret, false)
    ensures Total(threads, Rank()) == 6 * |threads|
  {
    if threads != [] {
      assert threads[0] == Thread(Interpret, false);
      forall t | 0 <= t < |threads| - 1 ensures threads[1..][t] == Thread(Interpret, false) {
        assert threads[1..][t] == threads[t + 1];
      }
      RankOfFresh(threads[1..]);
    }
  }
}
