/**
 * Cutting a pipeline of suboperators into pieces that run one after the other over a shared store of columns. A piece reads
 * the columns it misses from the store and writes some of its own columns back. Columns of void type only tie
 * suboperators together and are never stored; a strong link says that a consumer cannot be separated from its producer.
 */
module Repipe {

  datatype IU = IU(id: nat, isVoid: bool)

  datatype Op = Op(name: nat, sources: seq<IU>, outs: seq<IU>, strongIn: bool, strongOut: bool)

  /** The suboperators of a pipeline in order, and which of them provides each IU. */
  datatype Graph = Graph(ops: seq<Op>, owner: map<IU, nat>)

  /** A rebuilt pipeline: fuse chunk sources, suboperators, fuse chunk sinks. */
  datatype Piece = Piece(inputs: seq<IU>, ops: seq<Op>, sinks: set<IU>)

  /** Every IU is provided by exactly one suboperator, and before it is used. */
  ghost predicate SingleAssignment(g: Graph) {
    && (forall k, v {:trigger v in g.ops[k].outs} :: 0 <= k < |g.ops| && v in g.ops[k].outs ==> v in g.owner && g.owner[v] == k)
    && (forall v :: v in g.owner ==> g.owner[v] < |g.ops| && v in g.ops[g.owner[v]].outs)
    && (forall k, v {:trigger v in g.ops[k].sources} :: 0 <= k < |g.ops| && v in g.ops[k].sources ==>
          v in g.owner && g.owner[v] < k)
  }

  /** The producer at the other end of the strong link into suboperator `k`. */
  ghost function Partner(g: Graph, k: nat): (p: nat)
    requires SingleAssignment(g) && k < |g.ops|
    ensures g.ops[k].sources != [] ==> p < k && g.ops[k].sources[0] in g.ops[p].outs
  {
    if g.ops[k].sources == [] then 0
    else
      assert g.ops[k].sources[0] in g.ops[k].sources;
      g.owner[g.ops[k].sources[0]]
  }

  /** Strong links connect the single output of a producer to the first input of a consumer, and form no chains. */
  ghost predicate LinkedProperly(g: Graph, k: nat)
    requires SingleAssignment(g) && k < |g.ops|
  {
    var op := g.ops[k];
    && (op.strongIn ==> op.sources != [] && g.ops[Partner(g, k)].strongOut)
    && (forall i :: 0 <= i < |op.sources| ==>
          op.sources[i] in op.sources && (g.ops[g.owner[op.sources[i]]].strongOut ==> op.strongIn && i == 0))
    && (op.strongOut ==> |op.outs| == 1 && !op.strongIn && NoRepeats(op.sources))
  }

  /** The first input of a consumer of a strong link. */
  ghost predicate IsHandle(g: Graph, k: nat, v: IU)
    requires k < |g.ops|
  {
    g.ops[k].strongIn && g.ops[k].sources != [] && v == g.ops[k].sources[0]
  }

  ghost predicate WellFormed(g: Graph) {
    SingleAssignment(g) && forall k :: 0 <= k < |g.ops| ==> LinkedProperly(g, k)
  }

  ghost predicate Consumes(g: Graph, c: nat, p: nat) {
    c < |g.ops| && ReadsFrom(g.ops[c].sources, g.owner, p)
  }

  ghost predicate Consumed(g: Graph, p: nat) {
    exists c: nat :: Consumes(g, c, p)
  }

  ghost predicate NoRepeats(vs: seq<IU>) {
    forall i, j :: 0 <= i < j < |vs| ==> vs[i] != vs[j]
  }

  // ---------------------------------------------------------------------------------------------
  // Building pipelines and pieces
  // ---------------------------------------------------------------------------------------------

  /** What a piece reads: the inputs of an attached strong producer, and whatever comes from before `start` otherwise. */
  ghost predicate Misses(g: Graph, start: nat, k: nat, v: IU)
    requires WellFormed(g) && start < |g.ops| && k <= |g.ops|
  {
    || (g.ops[start].strongIn && v in g.ops[Partner(g, start)].sources)
    || (Outside(g, start, k, v) && !IsHandle(g, start, v))
  }

  /** A suboperator in [start, k) uses `v` from before `start`. */
  ghost predicate Outside(g: Graph, start: nat, k: nat, v: IU)
    requires k <= |g.ops|
  {
    v in g.owner && g.owner[v] < start && exists j :: start <= j < k && v in g.ops[j].sources
  }

  /** All uses of columns by a piece up to suboperator `k`, those of an attached strong producer first. */
  ghost function Uses(g: Graph, start: nat, k: nat): seq<IU>
    requires SingleAssignment(g) && start <= k <= |g.ops| && start < |g.ops|
  {
    if k > start then Uses(g, start, k - 1) + g.ops[k - 1].sources
    else if g.ops[start].strongIn then g.ops[Partner(g, start)].sources
    else []
  }

  ghost function Attached(g: Graph, start: nat): seq<Op>
    requires SingleAssignment(g) && start < |g.ops|
  {
    if g.ops[start].strongIn then [g.ops[Partner(g, start)]] else []
  }

  /** The piece for [start, end). */
  ghost predicate IsPiece(g: Graph, start: nat, end: nat, sinks: set<IU>, piece: Piece)
    requires WellFormed(g) && start < end <= |g.ops|
  {
    && piece.sinks == sinks
    && NoRepeats(piece.inputs) && InOrder(piece.inputs, Uses(g, start, end))
    && (forall v :: v in piece.inputs <==> !v.isVoid && Misses(g, start, end, v))
    && ArePieceOps(g, start, end, piece.ops)
  }

  ghost predicate ArePieceOps(g: Graph, start: nat, end: nat, ops: seq<Op>)
    requires SingleAssignment(g) && start < end <= |g.ops|
  {
    exists consumer: nat :: AreOpsWith(g, start, end, ops, consumer)
  }

  /** `consumer` only matters if the last suboperator must not be separated from it. */
  ghost predicate AreOpsWith(g: Graph, start: nat, end: nat, ops: seq<Op>, consumer: nat)
    requires SingleAssignment(g) && start < end <= |g.ops|
  {
    if g.ops[end - 1].strongOut
    then Consumes(g, consumer, end - 1) && ops == Attached(g, start) + g.ops[start..end] + [g.ops[consumer]]
    else ops == Attached(g, start) + g.ops[start..end]
  }

  /** The first use of `a` comes before every use of `b`. */
  ghost predicate UsedEarlier(uses: seq<IU>, a: IU, b: IU) {
    exists p :: 0 <= p < |uses| && uses[p] == a && b !in uses[..p + 1]
  }

  /** The columns are listed in the order of their first use. */
  ghost predicate InOrder(vs: seq<IU>, uses: seq<IU>) {
    && (forall i :: 0 <= i < |vs| ==> vs[i] in uses)
    && (forall i, j :: 0 <= i < j < |vs| ==> UsedEarlier(uses, vs[i], vs[j]))
  }

  lemma UsedEarlierStays(uses: seq<IU>, more: seq<IU>, a: IU, b: IU)
    requires UsedEarlier(uses, a, b)
    ensures UsedEarlier(uses + more, a, b)
  {
    var p :| 0 <= p < |uses| && uses[p] == a && b !in uses[..p + 1];
    assert (uses + more)[..p + 1] == uses[..p + 1];
  }

  lemma OneMoreUse(vs: seq<IU>, uses: seq<IU>, v: IU)
    requires InOrder(vs, uses)
    ensures InOrder(vs, uses + [v])
    ensures v !in uses ==> InOrder(vs + [v], uses + [v])
  {
    forall i, j | 0 <= i < j < |vs| ensures UsedEarlier(uses + [v], vs[i], vs[j]) {
      UsedEarlierStays(uses, [v], vs[i], vs[j]);
    }
    if v !in uses {
      forall i | 0 <= i < |vs| ensures UsedEarlier(uses + [v], vs[i], v) {
        var p :| 0 <= p < |uses| && uses[p] == vs[i];
        assert (uses + [v])[..p + 1] == uses[..p + 1];
        assert (uses + [v])[p] == vs[i];
      }
    }
  }

  /** Appends the sources that are neither provided nor planned yet, in order of appearance. */
  method AddMissing(provided: set<IU>, required: seq<IU>, sources: seq<IU>, ghost uses: seq<IU>) returns (r: seq<IU>)
    requires NoRepeats(required) && InOrder(required, uses) && forall v :: v in uses ==> v in required || v in provided
    ensures NoRepeats(r) && InOrder(r, uses + sources) && forall v :: v in uses + sources ==> v in r || v in provided
    ensures forall v :: v in r <==> v in required || (v in sources && v !in provided)
  {
    r := required;
    ghost var seen := uses;
    for i := 0 to |sources|
      invariant seen == uses + sources[..i]
      invariant NoRepeats(r) && InOrder(r, seen) && forall v :: v in seen ==> v in r || v in provided
      invariant forall v :: v in r <==> v in required || (v in sources[..i] && v !in provided)
    {
      OneMoreUse(r, seen, sources[i]);
      seen := seen + [sources[i]];
      if sources[i] !in provided && sources[i] !in r {
        r := r + [sources[i]];
      }
    }
    assert sources[..|sources|] == sources;
  }

  method WithoutVoid(required: seq<IU>, ghost uses: seq<IU>) returns (r: seq<IU>)
    requires NoRepeats(required) && InOrder(required, uses)
    ensures NoRepeats(r) && InOrder(r, uses)
    ensures forall v :: v in r <==> v in required && !v.isVoid
  {
    r := [];
    for i := 0 to |required|
      invariant NoRepeats(r) && InOrder(r, uses)
      invariant forall k, j :: 0 <= k < |r| && i <= j < |required| ==> UsedEarlier(uses, r[k], required[j])
      invariant forall v :: v in r <==> v in required[..i] && !v.isVoid
    {
      if !required[i].isVoid {
        r := r + [required[i]];
      }
    }
  }

  /**
   * The piece provides the outputs of one more suboperator. The assertion is the one of the original: nothing that the piece
   * provides is already planned to be read.
   */
  method ProvideOutputs(outs: seq<IU>, provided: set<IU>, required: seq<IU>) returns (r: set<IU>)
    requires forall v :: v in outs ==> v !in required
    ensures forall v :: v in r <==> v in provided || v in outs
  {
    r := provided;
    for i := 0 to |outs|
      invariant forall v :: v in r <==> v in provided || v in outs[..i]
    {
      r := r + {outs[i]};
      assert outs[i] in outs;
      assert outs[i] !in required;
    }
  }

  method LinkProducers(sources: seq<IU>, providers: map<IU, nat>, consumers: map<nat, nat>, me: nat)
    returns (edges: map<nat, nat>)
    ensures forall p :: p in edges <==> p in consumers || ReadsFrom(sources, providers, p)
    ensures forall p :: p in edges ==> edges[p] == if p in consumers then consumers[p] else me
  {
    edges := consumers;
    for i := 0 to |sources|
      invariant forall p :: p in edges ==> p in consumers || ReadsFrom(sources, providers, p)
      invariant forall p :: p in consumers ==> p in edges
      invariant forall p :: p in edges ==> edges[p] == if p in consumers then consumers[p] else me
      invariant forall v :: v in sources[..i] && v in providers ==> providers[v] in edges
    {
      assert sources[i] in sources;
      if sources[i] in providers && providers[sources[i]] !in edges {
        edges := edges[providers[sources[i]] := me];
      }
    }
    assert sources[..|sources|] == sources;
  }

  ghost predicate ReadsFrom(sources: seq<IU>, providers: map<IU, nat>, p: nat) {
    exists v :: v in sources && v in providers && providers[v] == p
  }

  method RegisterOutputs(outs: seq<IU>, providers: map<IU, nat>, me: nat) returns (owner: map<IU, nat>)
    requires forall v :: v in outs ==> v !in providers
    ensures forall v :: v in owner <==> v in providers || v in outs
    ensures forall v :: v in owner ==> owner[v] == if v in providers then providers[v] else me
  {
    owner := providers;
    for i := 0 to |outs|
      invariant forall v :: v in owner <==> v in providers || v in outs[..i]
      invariant forall v :: v in owner ==> owner[v] == if v in providers then providers[v] else me
    {
      assert outs[i] in outs;
      owner := owner[outs[i] := me];
    }
  }

  /** `repipeRequired`: the columns that later suboperators use. */
  ghost predicate RequiredSinks(g: Graph, start: nat, end: nat, sinks: set<IU>) {
    forall v :: v in sinks <==>
      !v.isVoid && v in g.owner && start <= g.owner[v] < end && exists k :: end <= k < |g.ops| && v in g.ops[k].sources
  }

  /** `repipeAll`: all columns but those of strong producers. */
  ghost predicate AllSinks(g: Graph, start: nat, end: nat, sinks: set<IU>)
    requires SingleAssignment(g)
  {
    forall v :: v in sinks <==> !v.isVoid && v in g.owner && start <= g.owner[v] < end && !g.ops[g.owner[v]].strongOut
  }

  /** The piece that `repipeRequired` or `repipeAll` builds. */
  ghost predicate IsSegmentPiece(g: Graph, start: nat, end: nat, compiled: bool, piece: Piece)
    requires WellFormed(g) && start <= end <= |g.ops|
  {
    if start == end then piece == Piece([], [], {})
    else
      && (if compiled then RequiredSinks(g, start, end, piece.sinks) else AllSinks(g, start, end, piece.sinks))
      && IsPiece(g, start, end, piece.sinks, piece)
  }

  /** The columns of the range that suboperators behind it use. */
  method CollectRequired(ops: seq<Op>, ghost g: Graph, start: nat, end: nat) returns (required: set<IU>)
    requires ops == g.ops && SingleAssignment(g) && start <= end <= |ops|
    ensures RequiredSinks(g, start, end, required)
  {
    var provided: set<IU> := {};
    for k := start to end
      invariant forall v :: v in provided <==> !v.isVoid && v in g.owner && start <= g.owner[v] < k
    {
      provided := provided + set v | v in ops[k].outs && !v.isVoid;
    }
    required := {};
    for k := end to |ops|
      invariant forall v :: v in required <==> v in provided && exists j :: end <= j < k && v in ops[j].sources
    {
      ghost var before := required;
      required := required + set v | v in ops[k].sources && v in provided;
      forall v | v in required && v !in before ensures exists j :: end <= j < k + 1 && v in ops[j].sources {
        assert v in ops[k].sources;
      }
    }
  }

  /** The columns of the range that do not come from a strong producer. */
  method CollectAll(ops: seq<Op>, ghost g: Graph, start: nat, end: nat) returns (provided: set<IU>)
    requires ops == g.ops && SingleAssignment(g) && start <= end <= |ops|
    ensures AllSinks(g, start, end, provided)
  {
    provided := {};
    for k := start to end
      invariant forall v :: v in provided <==>
        !v.isVoid && v in g.owner && start <= g.owner[v] < k && !g.ops[g.owner[v]].strongOut
    {
      if !ops[k].strongOut {
        provided := provided + set v | v in ops[k].outs && !v.isVoid;
      }
    }
  }

  /** The register of providers is exact, whether or not all sources are known. */
  ghost predicate Registered(g: Graph) {
    && (forall v :: v in g.owner ==> g.owner[v] < |g.ops| && v in g.ops[g.owner[v]].outs)
    && (forall k, v {:trigger v in g.ops[k].outs} :: 0 <= k < |g.ops| && v in g.ops[k].outs ==> v in g.owner && g.owner[v] == k)
  }

  /** Every producer of something that a later suboperator uses has an edge to a consumer. */
  ghost predicate Linked(g: Graph, consumers: map<nat, nat>) {
    && (forall p :: p in consumers ==> Consumes(g, consumers[p], p))
    && (forall c, v {:trigger v in g.ops[c].sources} ::
          0 <= c < |g.ops| && v in g.ops[c].sources && v in g.owner && g.owner[v] < c ==> g.owner[v] in consumers)
  }

  class Pipeline {
    var suboperators: seq<Op>
    var providers: map<IU, nat>
    /** The first edge out of each suboperator that has one. */
    var consumers: map<nat, nat>

    ghost predicate Valid()
      reads this
    {
      Registered(View()) && Linked(View(), consumers)
    }

    ghost function View(): Graph
      reads this
    {
      Graph(suboperators, providers)
    }

    constructor ()
      ensures Valid() && View() == Graph([], map[])
    {
      suboperators, providers, consumers := [], map[], map[];
    }

    /** Appends a suboperator whose outputs are new. A pipeline stays in single assignment form if its inputs are known. */
    method AttachSuboperator(op: Op)
      requires Valid() && forall v :: v in op.outs ==> v !in providers
      modifies this
      ensures Valid() && suboperators == old(suboperators) + [op]
      ensures forall v :: v in providers <==> v in old(providers) || v in op.outs
      ensures old(SingleAssignment(View())) && (forall v :: v in op.sources ==> v in old(providers)) ==> SingleAssignment(View())
    {
      var me := |suboperators|;
      var edges := LinkProducers(op.sources, providers, consumers, me);
      var owner := RegisterOutputs(op.outs, providers, me);
      AttachRegisters(View(), op, owner);
      AttachLinks(View(), op, owner, consumers, edges);
      if SingleAssignment(View()) && forall v :: v in op.sources ==> v in providers {
        AttachAssignsOnce(View(), op, owner);
      }
      suboperators, providers, consumers := suboperators + [op], owner, edges;
    }

    method RepipeAll(start: nat, end: nat) returns (piece: Piece)
      requires Valid() && WellFormed(View()) && start <= end <= |suboperators|
      requires start < end && suboperators[end - 1].strongOut ==> Consumed(View(), end - 1)
      ensures IsSegmentPiece(View(), start, end, false, piece)
      ensures forall v :: v in piece.sinks <==>
        !v.isVoid && v in providers && start <= providers[v] < end && !suboperators[providers[v]].strongOut
    {
      var sinks := CollectAll(suboperators, View(), start, end);
      piece := Repipe(start, end, sinks);
    }

    method RepipeRequired(start: nat, end: nat) returns (piece: Piece)
      requires Valid() && WellFormed(View()) && start <= end <= |suboperators|
      requires start < end && suboperators[end - 1].strongOut ==> Consumed(View(), end - 1)
      ensures IsSegmentPiece(View(), start, end, true, piece)
      ensures forall v :: v in piece.sinks <==>
        && !v.isVoid && v in providers && start <= providers[v] < end
        && exists k :: end <= k < |suboperators| && v in suboperators[k].sources
    {
      var sinks := CollectRequired(suboperators, View(), start, end);
      piece := Repipe(start, end, sinks);
    }

    /** Rebuilds the pipeline for the suboperators in [start, end). */
    method Repipe(start: nat, end: nat, materialize: set<IU>) returns (piece: Piece)
      requires Valid() && WellFormed(View()) && start <= end <= |suboperators|
      requires start < end && suboperators[end - 1].strongOut ==> Consumed(View(), end - 1)
      ensures if start == end then piece == Piece([], [], {}) else IsPiece(View(), start, end, materialize, piece)
    {
      if start == end {
        return Piece([], [], {});
      }
      piece := BuildPiece(Graph(suboperators, providers), consumers, start, end, materialize);
    }
  }

  /** Puts sources, an incoming strong producer, the range, an outgoing strong consumer and the sinks together. */
  method BuildPiece(g: Graph, consumers: map<nat, nat>, start: nat, end: nat, materialize: set<IU>)
    returns (piece: Piece)
    requires WellFormed(g) && Linked(g, consumers) && start < end <= |g.ops|
    requires g.ops[end - 1].strongOut ==> Consumed(g, end - 1)
    ensures IsPiece(g, start, end, materialize, piece)
  {
    assert LinkedProperly(g, start);
    var ops := CopyOperators(g, consumers, start, end);
    var inputs := PlanInputs(g, start, end);
    piece := Piece(inputs, ops, materialize);
  }

  method CopyOperators(g: Graph, consumers: map<nat, nat>, start: nat, end: nat) returns (ops: seq<Op>)
    requires SingleAssignment(g) && Linked(g, consumers) && start < end <= |g.ops|
    requires g.ops[start].strongIn ==> g.ops[start].sources != []
    requires g.ops[end - 1].strongOut ==> Consumed(g, end - 1)
    ensures ArePieceOps(g, start, end, ops)
  {
    ops := g.ops[start..end];
    ghost var consumer: nat := 0;
    if g.ops[start].strongIn {
      assert g.ops[start].sources[0] in g.ops[start].sources;
      ops := [g.ops[g.owner[g.ops[start].sources[0]]]] + ops;
    }
    assert ops == Attached(g, start) + g.ops[start..end];
    if g.ops[end - 1].strongOut {
      ghost var c: nat :| Consumes(g, c, end - 1);
      ghost var v :| v in g.ops[c].sources && v in g.owner && g.owner[v] == end - 1;
      assert end - 1 in consumers;
      ops, consumer := ops + [g.ops[consumers[end - 1]]], consumers[end - 1];
    }
    assert AreOpsWith(g, start, end, ops, consumer);
  }

  /** Which columns the fuse chunk sources of a piece have to provide. */
  method PlanInputs(g: Graph, start: nat, end: nat) returns (inputs: seq<IU>)
    requires WellFormed(g) && start < end <= |g.ops|
    ensures NoRepeats(inputs) && forall v :: v in inputs <==> !v.isVoid && Misses(g, start, end, v)
    ensures InOrder(inputs, Uses(g, start, end))
  {
    var provided, required := PlanStart(g, start);
    var k := start;
    while k < end
      invariant start <= k <= end && Planned(g, start, k, provided, required)
    {
      provided, required := PlanNext(g, start, k, provided, required);
      k := k + 1;
    }
    inputs := PlanEnd(g, start, end, provided, required);
  }

  method PlanStart(g: Graph, start: nat) returns (provided: set<IU>, required: seq<IU>)
    requires WellFormed(g) && start < |g.ops|
    ensures Planned(g, start, start, provided, required)
  {
    provided, required := {}, [];
    StartOfPiece(g, start);
    if g.ops[start].strongIn {
      var strong := g.ops[g.owner[g.ops[start].sources[0]]];
      provided, required := {strong.outs[0]}, strong.sources;
      DistinctIsInOrder(required);
    }
  }

  method PlanEnd(g: Graph, start: nat, end: nat, ghost provided: set<IU>, required: seq<IU>) returns (inputs: seq<IU>)
    requires WellFormed(g) && start < end <= |g.ops| && Planned(g, start, end, provided, required)
    ensures NoRepeats(inputs) && forall v :: v in inputs <==> !v.isVoid && Misses(g, start, end, v)
    ensures InOrder(inputs, Uses(g, start, end))
  {
    inputs := WithoutVoid(required, Uses(g, start, end));
  }

  /** What the piece provides before suboperator `k`, and what it has to read so far. */
  ghost predicate Planned(g: Graph, start: nat, k: nat, provided: set<IU>, required: seq<IU>)
    requires WellFormed(g) && start <= k <= |g.ops| && start < |g.ops|
  {
    && (forall v :: v in provided <==> InPiece(g, start, k, v))
    && NoRepeats(required)
    && (forall v :: v in required <==> Misses(g, start, k, v))
    && InOrder(required, Uses(g, start, k)) && forall v :: v in Uses(g, start, k) ==> v in required || v in provided
  }

  method PlanNext(g: Graph, start: nat, k: nat, provided: set<IU>, required: seq<IU>)
    returns (provided': set<IU>, required': seq<IU>)
    requires WellFormed(g) && start <= k < |g.ops| && Planned(g, start, k, provided, required)
    ensures Planned(g, start, k + 1, provided', required')
  {
    PieceStep(g, start, k);
    provided' := ProvideOutputs(g.ops[k].outs, provided, required);
    required' := AddMissing(provided', required, g.ops[k].sources, Uses(g, start, k));
  }

  lemma DistinctIsInOrder(vs: seq<IU>)
    requires NoRepeats(vs)
    ensures InOrder(vs, vs)
  {
    forall i, j | 0 <= i < j < |vs| ensures UsedEarlier(vs, vs[i], vs[j]) {
      assert vs[j] !in vs[..i + 1];
    }
  }

  /** What the piece provides itself before suboperator `k`. */
  ghost predicate InPiece(g: Graph, start: nat, k: nat, v: IU)
    requires WellFormed(g) && start < |g.ops|
  {
    IsHandle(g, start, v) || (v in g.owner && start <= g.owner[v] < k)
  }

  ghost predicate Attaches(g: Graph, op: Op, owner: map<IU, nat>) {
    && (forall v :: v in op.outs ==> v !in g.owner)
    && (forall v :: v in owner <==> v in g.owner || v in op.outs)
    && (forall v :: v in owner ==> owner[v] == if v in g.owner then g.owner[v] else |g.ops|)
  }

  lemma AttachRegisters(g: Graph, op: Op, owner: map<IU, nat>)
    requires Registered(g) && Attaches(g, op, owner)
    ensures Registered(Graph(g.ops + [op], owner))
  {
  }

  lemma AttachAssignsOnce(g: Graph, op: Op, owner: map<IU, nat>)
    requires SingleAssignment(g) && Attaches(g, op, owner) && forall v :: v in op.sources ==> v in g.owner
    ensures SingleAssignment(Graph(g.ops + [op], owner))
  {
    AttachRegisters(g, op, owner);
    var ops := g.ops + [op];
    forall k, v | 0 <= k < |ops| && v in ops[k].sources ensures v in owner && owner[v] < k {
      assert v in g.owner;
    }
  }

  lemma AttachLinks(g: Graph, op: Op, owner: map<IU, nat>, consumers: map<nat, nat>, edges: map<nat, nat>)
    requires Linked(g, consumers) && Attaches(g, op, owner)
    requires forall p :: p in edges <==> p in consumers || ReadsFrom(op.sources, g.owner, p)
    requires forall p :: p in edges ==> edges[p] == if p in consumers then consumers[p] else |g.ops|
    ensures Linked(Graph(g.ops + [op], owner), edges)
  {
    var g' := Graph(g.ops + [op], owner);
    forall p | p in edges ensures Consumes(g', edges[p], p) {
      KeepsConsumer(g, g', op, if p in consumers then consumers[p] else |g.ops|, p);
    }
    forall c, v | 0 <= c < |g'.ops| && v in g'.ops[c].sources && v in owner && owner[v] < c ensures owner[v] in edges {
      if c == |g.ops| {
        assert v in op.sources && ReadsFrom(op.sources, g.owner, owner[v]);
      }
    }
  }

  lemma KeepsConsumer(g: Graph, g': Graph, op: Op, c: nat, p: nat)
    requires g'.ops == g.ops + [op] && forall v :: v in g.owner ==> v in g'.owner && g'.owner[v] == g.owner[v]
    requires Consumes(g, c, p) || (c == |g.ops| && ReadsFrom(op.sources, g.owner, p))
    ensures Consumes(g', c, p)
  {
    var v :| v in (if c < |g.ops| then g.ops[c] else op).sources && v in g.owner && g.owner[v] == p;
    assert v in g'.owner && g'.owner[v] == p;
  }

  lemma StartOfPiece(g: Graph, start: nat)
    requires WellFormed(g) && start < |g.ops|
    ensures forall v :: Misses(g, start, start, v) <==> g.ops[start].strongIn && v in g.ops[Partner(g, start)].sources
    ensures g.ops[start].strongIn ==> g.ops[start].sources != [] && NoRepeats(g.ops[Partner(g, start)].sources)
    ensures g.ops[start].strongIn ==> g.ops[Partner(g, start)].outs == [g.ops[start].sources[0]]
  {
    assert LinkedProperly(g, start) && LinkedProperly(g, Partner(g, start));
  }

  lemma PieceStep(g: Graph, start: nat, k: nat)
    requires WellFormed(g) && start <= k < |g.ops|
    ensures forall v :: InPiece(g, start, k + 1, v) <==> InPiece(g, start, k, v) || v in g.ops[k].outs
    ensures forall v :: v in g.ops[k].outs ==> !Misses(g, start, k, v)
    ensures forall v :: Misses(g, start, k + 1, v) <==>
      Misses(g, start, k, v) || (v in g.ops[k].sources && !InPiece(g, start, k + 1, v))
  {
    forall v | Misses(g, start, k + 1, v) && !Misses(g, start, k, v)
      ensures v in g.ops[k].sources && !InPiece(g, start, k + 1, v)
    {
      var j :| start <= j < k + 1 && v in g.ops[j].sources;
      assert j == k;
    }
  }

  // ---------------------------------------------------------------------------------------------
  // What pipelines and pieces compute
  // ---------------------------------------------------------------------------------------------

  /** The values of a column, and everything suboperators change besides columns: hash tables, materialised tuples, output. */
  type Column(==, !new)
  type World(==, !new)

  /** The meaning of suboperators: each output and the next world, from the inputs and the world. */
  datatype Machine = Machine(out: (Op, seq<Column>, World, IU) -> Column, next: (Op, seq<Column>, World) -> World,
                             nothing: Column)

  datatype State = State(columns: map<IU, Column>, world: World)

  /**
   * Producers of strong links, such as filter scopes and loop drivers, only prepare their consumers. Any other column of
   * void type carries nothing.
   */
  ghost predicate Faithful(m: Machine) {
    && (forall op: Op, ins, w :: op.strongOut ==> m.next(op, ins, w) == w)
    && (forall op: Op, ins, w, w', v: IU :: op.strongOut ==> m.out(op, ins, w, v) == m.out(op, ins, w', v))
    && (forall op: Op, ins, w, v: IU :: !op.strongOut && v.isVoid ==> m.out(op, ins, w, v) == m.nothing)
  }

  function Value(m: Machine, columns: map<IU, Column>, v: IU): Column {
    if v in columns then columns[v] else m.nothing
  }

  function Inputs(m: Machine, columns: map<IU, Column>, sources: seq<IU>): seq<Column> {
    if sources == [] then [] else [Value(m, columns, sources[0])] + Inputs(m, columns, sources[1..])
  }

  lemma {:induction false} SameInputs(m: Machine, a: map<IU, Column>, b: map<IU, Column>, sources: seq<IU>)
    requires forall v :: v in sources ==> Value(m, a, v) == Value(m, b, v)
    ensures Inputs(m, a, sources) == Inputs(m, b, sources)
  {
    if sources != [] {
      assert sources[0] in sources;
      SameInputs(m, a, b, sources[1..]);
    }
  }

  function Exec(m: Machine, op: Op, s: State): State {
    var ins := Inputs(m, s.columns, op.sources);
    State(s.columns + (map v | v in op.outs :: m.out(op, ins, s.world, v)), m.next(op, ins, s.world))
  }

  /** Runs the first `n` suboperators. */
  function ExecAll(m: Machine, ops: seq<Op>, n: nat, s: State): State
    requires n <= |ops|
  {
    if n == 0 then s else Exec(m, ops[n - 1], ExecAll(m, ops, n - 1, s))
  }

  /** The whole pipeline up to suboperator `n`, run as one. */
  function Whole(m: Machine, g: Graph, n: nat, w: World): State
    requires n <= |g.ops|
  {
    ExecAll(m, g.ops, n, State(map[], w))
  }

  /** What the fuse chunk sources of a piece copy from the store. */
  function Copied(piece: Piece, columns: map<IU, Column>): map<IU, Column> {
    map v | v in piece.inputs && v in columns :: columns[v]
  }

  function RunOps(m: Machine, piece: Piece, s: State): State {
    ExecAll(m, piece.ops, |piece.ops|, State(Copied(piece, s.columns), s.world))
  }

  /** A piece copies its inputs from the store, runs, and writes its sinks back. */
  function RunPiece(m: Machine, piece: Piece, s: State): State {
    var end := RunOps(m, piece, s);
    State(s.columns + (map v | v in piece.sinks && v in end.columns :: end.columns[v]), end.world)
  }

  /** The columns are those that the first `n` suboperators define. */
  ghost predicate Provides(g: Graph, n: nat, columns: map<IU, Column>) {
    forall v :: v in columns <==> v in g.owner && g.owner[v] < n
  }

  /** Nothing is lost, and nothing overwritten. */
  ghost predicate Extends(before: map<IU, Column>, after: map<IU, Column>) {
    forall v :: v in before ==> v in after && after[v] == before[v]
  }

  lemma OneMore(m: Machine, ops: seq<Op>, n: nat, s: State)
    requires n < |ops|
    ensures ExecAll(m, ops, n + 1, s) == Exec(m, ops[n], ExecAll(m, ops, n, s))
  {
  }

  lemma ProvidesNext(m: Machine, g: Graph, n: nat, s: State)
    requires SingleAssignment(g) && n < |g.ops| && Provides(g, n, s.columns)
    ensures Provides(g, n + 1, Exec(m, g.ops[n], s).columns) && Extends(s.columns, Exec(m, g.ops[n], s).columns)
  {
  }

  lemma WholeNext(m: Machine, g: Graph, w: World, n: nat)
    requires SingleAssignment(g) && n < |g.ops| && Provides(g, n, Whole(m, g, n, w).columns)
    ensures Provides(g, n + 1, Whole(m, g, n + 1, w).columns)
    ensures Extends(Whole(m, g, n, w).columns, Whole(m, g, n + 1, w).columns)
  {
    ProvidesNext(m, g, n, Whole(m, g, n, w));
    OneMore(m, g.ops, n, State(map[], w));
  }

  /** Every column is defined once, and keeps its value from then on. */
  lemma {:induction false} WholeProvides(m: Machine, g: Graph, w: World, n: nat)
    requires SingleAssignment(g) && n <= |g.ops|
    ensures Provides(g, n, Whole(m, g, n, w).columns)
  {
    if n != 0 {
      WholeProvides(m, g, w, n - 1);
      WholeNext(m, g, w, n - 1);
    }
  }

  lemma {:induction false} ChainExtends(run: seq<map<IU, Column>>, k: nat, n: nat)
    requires k <= n < |run| && forall i :: 0 < i < |run| ==> Extends(run[i - 1], run[i])
    ensures Extends(run[k], run[n])
  {
    if k < n {
      ChainExtends(run, k, n - 1);
    }
  }

  lemma WholeExtends(m: Machine, g: Graph, w: World, k: nat, n: nat)
    requires SingleAssignment(g) && k <= n <= |g.ops|
    ensures Extends(Whole(m, g, k, w).columns, Whole(m, g, n, w).columns)
  {
    var run := seq(|g.ops| + 1, i requires 0 <= i <= |g.ops| => Whole(m, g, i, w).columns);
    forall i | 0 < i < |run| ensures Extends(run[i - 1], run[i]) {
      WholeProvides(m, g, w, i - 1);
      WholeNext(m, g, w, i - 1);
    }
    ChainExtends(run, k, n);
    assert run[k] == Whole(m, g, k, w).columns && run[n] == Whole(m, g, n, w).columns;
  }

  /** What the whole pipeline computes: the value of every column, and the world in front of every suboperator. */
  datatype Trace = Trace(values: map<IU, Column>, worlds: nat -> World)

  function Meaning(m: Machine, tr: Trace, v: IU): Column {
    Value(m, tr.values, v)
  }

  ghost predicate FollowsAt(m: Machine, g: Graph, tr: Trace, k: nat)
    requires k < |g.ops|
  {
    var op := g.ops[k];
    var ins := Inputs(m, tr.values, op.sources);
    && tr.worlds(k + 1) == m.next(op, ins, tr.worlds(k))
    && forall v :: v in op.outs ==> v in tr.values && tr.values[v] == m.out(op, ins, tr.worlds(k), v)
  }

  ghost predicate Follows(m: Machine, g: Graph, tr: Trace) {
    forall k :: 0 <= k < |g.ops| ==> FollowsAt(m, g, tr, k)
  }

  /** The run of the whole pipeline as one. */
  ghost function WholeTrace(m: Machine, g: Graph, w: World): Trace {
    Trace(Whole(m, g, |g.ops|, w).columns, (k: nat) => if k <= |g.ops| then Whole(m, g, k, w).world else w)
  }

  /** No suboperator behind `k` changes what `k` reads. */
  lemma ReadsSame(m: Machine, g: Graph, k: nat, before: map<IU, Column>, all: map<IU, Column>)
    requires SingleAssignment(g) && k < |g.ops| && Provides(g, k, before) && Extends(before, all)
    ensures Inputs(m, before, g.ops[k].sources) == Inputs(m, all, g.ops[k].sources)
  {
    SameInputs(m, before, all, g.ops[k].sources);
  }

  lemma StepFollows(m: Machine, g: Graph, tr: Trace, k: nat, before: State, after: State)
    requires SingleAssignment(g) && k < |g.ops| && after == Exec(m, g.ops[k], before)
    requires Provides(g, k, before.columns) && Extends(before.columns, tr.values) && Extends(after.columns, tr.values)
    requires tr.worlds(k) == before.world && tr.worlds(k + 1) == after.world
    ensures FollowsAt(m, g, tr, k)
  {
    ReadsSame(m, g, k, before.columns, tr.values);
  }

  lemma WholeFollows(m: Machine, g: Graph, w: World)
    requires SingleAssignment(g)
    ensures Follows(m, g, WholeTrace(m, g, w))
  {
    forall k | 0 <= k < |g.ops| ensures FollowsAt(m, g, WholeTrace(m, g, w), k) {
      WholeProvides(m, g, w, k);
      WholeExtends(m, g, w, k, |g.ops|);
      WholeExtends(m, g, w, k + 1, |g.ops|);
      StepFollows(m, g, WholeTrace(m, g, w), k, Whole(m, g, k, w), Whole(m, g, k + 1, w));
    }
  }

  /** All columns have the values of the whole pipeline. */
  ghost predicate Agrees(m: Machine, g: Graph, tr: Trace, columns: map<IU, Column>)
    requires SingleAssignment(g)
  {
    forall v :: v in columns ==> v in g.owner && columns[v] == Meaning(m, tr, v)
  }

  /** The inputs of suboperator `k` have the values of the whole pipeline. */
  ghost predicate Ready(m: Machine, g: Graph, tr: Trace, k: nat, columns: map<IU, Column>)
    requires SingleAssignment(g) && k < |g.ops|
  {
    forall v :: v in g.ops[k].sources ==> Value(m, columns, v) == Meaning(m, tr, v)
  }

  /** With the right inputs a suboperator does what it does in the whole pipeline. */
  lemma ExecMeans(m: Machine, g: Graph, tr: Trace, k: nat, s: State)
    requires SingleAssignment(g) && Faithful(m) && Follows(m, g, tr) && k < |g.ops|
    requires Agrees(m, g, tr, s.columns) && Ready(m, g, tr, k, s.columns)
    requires s.world == tr.worlds(k) || g.ops[k].strongOut
    ensures Agrees(m, g, tr, Exec(m, g.ops[k], s).columns)
    ensures s.world == tr.worlds(k) ==> Exec(m, g.ops[k], s).world == tr.worlds(k + 1)
    ensures g.ops[k].strongOut ==> Exec(m, g.ops[k], s).world == s.world
  {
    var op := g.ops[k];
    assert FollowsAt(m, g, tr, k);
    SameInputs(m, s.columns, tr.values, op.sources);
    forall v | v in op.outs ensures v in g.owner && Exec(m, op, s).columns[v] == Meaning(m, tr, v) {
    }
  }

  /** What the range uses from outside has the right value. */
  ghost predicate Supplied(m: Machine, g: Graph, tr: Trace, start: nat, end: nat, columns: map<IU, Column>)
    requires SingleAssignment(g) && start <= end <= |g.ops|
  {
    forall j, v {:trigger v in g.ops[j].sources} ::
      start <= j < end && v in g.ops[j].sources && g.owner[v] < start ==> Value(m, columns, v) == Meaning(m, tr, v)
  }

  /** `now` is what the range from `start` of the pipeline has computed before suboperator `k`. */
  ghost predicate Ran(m: Machine, g: Graph, tr: Trace, start: nat, k: nat, now: State)
    requires SingleAssignment(g) && k <= |g.ops|
  {
    && Agrees(m, g, tr, now.columns)
    && now.world == tr.worlds(k)
    && forall v :: v in g.owner && start <= g.owner[v] < k ==> v in now.columns
  }

  lemma StaysOnTrack(m: Machine, g: Graph, tr: Trace, start: nat, end: nat, k: nat, given: map<IU, Column>, now: State)
    requires SingleAssignment(g) && Faithful(m) && Follows(m, g, tr) && start <= k < end <= |g.ops|
    requires Supplied(m, g, tr, start, end, given) && Ran(m, g, tr, start, k, now) && forall v :: v in given ==> v in now.columns
    ensures Ran(m, g, tr, start, k + 1, Exec(m, g.ops[k], now))
    ensures forall v :: v in given ==> v in Exec(m, g.ops[k], now).columns
  {
    forall v | v in g.ops[k].sources ensures Value(m, now.columns, v) == Meaning(m, tr, v) {
      assert g.owner[v] < start ==> Value(m, given, v) == Meaning(m, tr, v);
    }
    ExecMeans(m, g, tr, k, now);
  }

  /** Runs `n` suboperators from `start` on. */
  function ExecRange(m: Machine, g: Graph, start: nat, n: nat, s: State): State
    requires start + n <= |g.ops|
  {
    if n == 0 then s else Exec(m, g.ops[start + n - 1], ExecRange(m, g, start, n - 1, s))
  }

  /** With all it uses from outside supplied, a range of the pipeline runs like in the whole. */
  lemma {:induction false} RangeRuns(m: Machine, g: Graph, tr: Trace, start: nat, end: nat, n: nat, s: State)
    requires SingleAssignment(g) && Faithful(m) && Follows(m, g, tr) && start + n <= end <= |g.ops|
    requires Ran(m, g, tr, start, start, s) && Supplied(m, g, tr, start, end, s.columns)
    ensures Ran(m, g, tr, start, start + n, ExecRange(m, g, start, n, s))
    ensures forall v :: v in s.columns ==> v in ExecRange(m, g, start, n, s).columns
  {
    if n != 0 {
      RangeRuns(m, g, tr, start, end, n - 1, s);
      var k, before := start + n - 1, ExecRange(m, g, start, n - 1, s);
      StaysOnTrack(m, g, tr, start, end, k, s.columns, before);
      assert ExecRange(m, g, start, n, s) == Exec(m, g.ops[k], before);
    }
  }

  lemma SameEnd(a: seq<Op>, b: seq<Op>, i: nat, j: nat, n: nat)
    requires 0 < n && i + n <= |a| && j + n <= |b| && a[i..i + n] == b[j..j + n]
    ensures a[i + n - 1] == b[j + n - 1] && a[i..i + n - 1] == b[j..j + n - 1]
  {
    assert a[i..i + n][n - 1] == b[j..j + n][n - 1];
    assert a[i..i + n - 1] == a[i..i + n][..n - 1];
    assert b[j..j + n - 1] == b[j..j + n][..n - 1];
  }

  lemma AllRun(m: Machine, piece: Piece, n: nat, s: State)
    requires n == |piece.ops|
    ensures RunOps(m, piece, s) == ExecAll(m, piece.ops, n, State(Copied(piece, s.columns), s.world))
  {
  }

  lemma {:induction false} SameOperators(m: Machine, g: Graph, start: nat, n: nat, ops: seq<Op>, offset: nat, s: State)
    requires start + n <= |g.ops| && offset + n <= |ops| && ops[offset..offset + n] == g.ops[start..start + n]
    ensures ExecAll(m, ops, offset + n, s) == ExecRange(m, g, start, n, ExecAll(m, ops, offset, s))
  {
    if n != 0 {
      SameEnd(ops, g.ops, offset, start, n);
      SameOperators(m, g, start, n - 1, ops, offset, s);
      OneMore(m, ops, offset + n - 1, s);
    }
  }

  /** The copied operators of a piece run behind `offset` attached ones, which led to `at`. */
  lemma PieceRunsRange(m: Machine, g: Graph, tr: Trace, start: nat, n: nat, ops: seq<Op>, offset: nat, s: State, at: State)
    requires SingleAssignment(g) && Faithful(m) && Follows(m, g, tr) && start + n <= |g.ops|
    requires offset + n <= |ops| && ops[offset..offset + n] == g.ops[start..start + n]
    requires at == ExecAll(m, ops, offset, s)
    requires Ran(m, g, tr, start, start, at) && Supplied(m, g, tr, start, start + n, at.columns)
    ensures Ran(m, g, tr, start, start + n, ExecAll(m, ops, offset + n, s))
    ensures forall v :: v in at.columns ==> v in ExecAll(m, ops, offset + n, s).columns
  {
    SameOperators(m, g, start, n, ops, offset, s);
    RangeRuns(m, g, tr, start, start + n, n, at);
  }

  /** A piece that ends with the range. */
  lemma PieceRunsToEnd(m: Machine, g: Graph, tr: Trace, start: nat, end: nat, piece: Piece, offset: nat, s: State, at: State)
    requires SingleAssignment(g) && Faithful(m) && Follows(m, g, tr) && start <= end <= |g.ops|
    requires |piece.ops| == offset + (end - start) && piece.ops[offset..] == g.ops[start..end]
    requires at == ExecAll(m, piece.ops, offset, State(Copied(piece, s.columns), s.world))
    requires Ran(m, g, tr, start, start, at) && Supplied(m, g, tr, start, end, at.columns)
    ensures Ran(m, g, tr, start, end, RunOps(m, piece, s))
  {
    var n := end - start;
    assert piece.ops[offset..offset + n] == g.ops[start..start + n];
    PieceRunsRange(m, g, tr, start, n, piece.ops, offset, State(Copied(piece, s.columns), s.world), at);
    AllRun(m, piece, offset + n, s);
  }

  // ---------------------------------------------------------------------------------------------
  // Cutting preserves the meaning
  // ---------------------------------------------------------------------------------------------

  /** Strong links lie inside the range or outside of it. */
  ghost predicate KeepsLinksTogether(g: Graph, start: nat, end: nat)
    requires WellFormed(g)
  {
    forall k {:trigger Partner(g, k)} ::
      0 <= k < |g.ops| && g.ops[k].strongIn ==> (start <= k < end <==> start <= Partner(g, k) < end)
  }

  /** A column from before `n` that some later suboperator uses, itself or through the producer of its strong link. */
  ghost predicate Needed(g: Graph, n: nat, v: IU)
    requires WellFormed(g)
  {
    && v in g.owner && g.owner[v] < n && !v.isVoid && !g.ops[g.owner[v]].strongOut
    && exists k :: n <= k < |g.ops| && UsedFor(g, k, v)
  }

  ghost predicate UsedFor(g: Graph, k: nat, v: IU)
    requires WellFormed(g) && k < |g.ops|
  {
    v in g.ops[k].sources || (g.ops[k].strongIn && v in g.ops[Partner(g, k)].sources)
  }

  /** The store between two pieces: the world is that of the whole pipeline, and no needed column is missing or wrong. */
  ghost predicate Keeps(m: Machine, g: Graph, tr: Trace, n: nat, s: State)
    requires WellFormed(g) && n <= |g.ops|
  {
    && s.world == tr.worlds(n)
    && Agrees(m, g, tr, s.columns)
    && forall v :: Needed(g, n, v) ==> v in s.columns
  }

  /** Columns without a value have none in the whole pipeline either. */
  lemma VoidMeansNothing(m: Machine, g: Graph, tr: Trace, v: IU)
    requires SingleAssignment(g) && Faithful(m) && Follows(m, g, tr) && v in g.owner && v.isVoid && !g.ops[g.owner[v]].strongOut
    ensures Meaning(m, tr, v) == m.nothing
  {
    assert FollowsAt(m, g, tr, g.owner[v]);
  }

  /** A piece that ran like its range and stores what is needed from it keeps the store complete. */
  lemma PieceStores(m: Machine, g: Graph, tr: Trace, start: nat, end: nat, piece: Piece, s: State)
    requires WellFormed(g) && start < end <= |g.ops| && Keeps(m, g, tr, start, s)
    requires Ran(m, g, tr, start, end, RunOps(m, piece, s))
    requires forall v :: Needed(g, end, v) ==> Needed(g, start, v) || (start <= g.owner[v] && v in piece.sinks)
    ensures Keeps(m, g, tr, end, RunPiece(m, piece, s))
  {
  }

  /** A compiled piece that keeps strong links together does what its range does in the whole pipeline. */
  lemma JitPieceKeeps(m: Machine, g: Graph, tr: Trace, start: nat, end: nat, sinks: set<IU>, piece: Piece, s: State)
    requires WellFormed(g) && Faithful(m) && Follows(m, g, tr) && start < end <= |g.ops| && KeepsLinksTogether(g, start, end)
    requires IsPiece(g, start, end, sinks, piece) && RequiredSinks(g, start, end, sinks)
    requires Keeps(m, g, tr, start, s)
    ensures Keeps(m, g, tr, end, RunPiece(m, piece, s))
  {
    JitPieceRuns(m, g, tr, start, end, piece, s);
    forall v | Needed(g, end, v) ensures Needed(g, start, v) || (start <= g.owner[v] && v in piece.sinks) {
      NeededAfterJit(g, start, end, v);
    }
    PieceStores(m, g, tr, start, end, piece, s);
  }

  lemma JitPieceRuns(m: Machine, g: Graph, tr: Trace, start: nat, end: nat, piece: Piece, s: State)
    requires WellFormed(g) && Faithful(m) && Follows(m, g, tr) && start < end <= |g.ops| && KeepsLinksTogether(g, start, end)
    requires IsPiece(g, start, end, piece.sinks, piece)
    requires Keeps(m, g, tr, start, s)
    ensures Ran(m, g, tr, start, end, RunOps(m, piece, s))
  {
    EndsAreWeak(g, start, end, piece.ops);
    JitPieceSupplied(m, g, tr, start, end, piece, s);
    var begin := State(Copied(piece, s.columns), s.world);
    PieceRunsToEnd(m, g, tr, start, end, piece, 0, s, begin);
  }

  lemma JitPieceSupplied(m: Machine, g: Graph, tr: Trace, start: nat, end: nat, piece: Piece, s: State)
    requires WellFormed(g) && Faithful(m) && Follows(m, g, tr) && start < end <= |g.ops| && KeepsLinksTogether(g, start, end)
    requires forall v :: v in piece.inputs <==> !v.isVoid && Misses(g, start, end, v)
    requires !g.ops[start].strongIn && Keeps(m, g, tr, start, s)
    ensures Supplied(m, g, tr, start, end, Copied(piece, s.columns))
  {
    forall j, v | start <= j < end && v in g.ops[j].sources && g.owner[v] < start
      ensures Value(m, Copied(piece, s.columns), v) == Meaning(m, tr, v)
    {
      SourceSupplied(m, g, tr, start, end, j, v, s);
      assert Outside(g, start, end, v);
    }
  }

  lemma ConsumerIsLinked(g: Graph, c: nat, p: nat)
    requires WellFormed(g) && p < |g.ops| && g.ops[p].strongOut && Consumes(g, c, p)
    ensures g.ops[c].strongIn && Partner(g, c) == p
  {
    var v :| v in g.ops[c].sources && v in g.owner && g.owner[v] == p;
    var i :| 0 <= i < |g.ops[c].sources| && g.ops[c].sources[i] == v;
    assert LinkedProperly(g, c);
  }

  lemma EndsAreWeak(g: Graph, start: nat, end: nat, ops: seq<Op>)
    requires WellFormed(g) && start < end <= |g.ops| && KeepsLinksTogether(g, start, end)
    requires ArePieceOps(g, start, end, ops)
    ensures !g.ops[start].strongIn && ops == g.ops[start..end]
  {
    assert LinkedProperly(g, start);
    var c: nat :| AreOpsWith(g, start, end, ops, c);
    if g.ops[end - 1].strongOut {
      ConsumerIsLinked(g, c, end - 1);
      assert false;
    }
  }

  lemma SourceSupplied(m: Machine, g: Graph, tr: Trace, start: nat, end: nat, j: nat, v: IU, s: State)
    requires WellFormed(g) && Faithful(m) && Follows(m, g, tr) && start <= j < end <= |g.ops| && KeepsLinksTogether(g, start, end)
    requires v in g.ops[j].sources && g.owner[v] < start && Keeps(m, g, tr, start, s)
    ensures v.isVoid ==> Meaning(m, tr, v) == m.nothing
    ensures !v.isVoid ==> v in s.columns
  {
    var i :| 0 <= i < |g.ops[j].sources| && g.ops[j].sources[i] == v;
    assert LinkedProperly(g, j);
    assert !g.ops[g.owner[v]].strongOut;
    if v.isVoid {
      VoidMeansNothing(m, g, tr, v);
    } else {
      assert UsedFor(g, j, v) && Needed(g, start, v);
    }
  }

  lemma NeededAfterJit(g: Graph, start: nat, end: nat, v: IU)
    requires WellFormed(g) && start < end <= |g.ops| && KeepsLinksTogether(g, start, end) && Needed(g, end, v)
    ensures g.owner[v] < start ==> Needed(g, start, v)
    ensures start <= g.owner[v] ==> exists k :: end <= k < |g.ops| && v in g.ops[k].sources
  {
    var k :| end <= k < |g.ops| && UsedFor(g, k, v);
    if v !in g.ops[k].sources {
      var p := Partner(g, k);
      assert v in g.ops[p].sources && g.owner[v] < p;
      assert !(start <= p < end);
    }
  }

  /** The weakly provided columns that suboperator `k` or its partner uses have the right values. */
  ghost predicate WeakSupplied(m: Machine, g: Graph, tr: Trace, k: nat, columns: map<IU, Column>)
    requires WellFormed(g) && k < |g.ops|
  {
    forall v :: v in g.owner && g.owner[v] < k && !g.ops[g.owner[v]].strongOut && UsedFor(g, k, v) ==>
      Value(m, columns, v) == Meaning(m, tr, v)
  }

  /** They are in the store, unless they are void and mean nothing. */
  lemma StoreSupplies(m: Machine, g: Graph, tr: Trace, k: nat, piece: Piece, s: State)
    requires WellFormed(g) && Faithful(m) && Follows(m, g, tr) && k < |g.ops| && Keeps(m, g, tr, k, s)
    requires forall v :: v in piece.inputs <==> !v.isVoid && Misses(g, k, k + 1, v)
    ensures WeakSupplied(m, g, tr, k, Copied(piece, s.columns))
    ensures Agrees(m, g, tr, Copied(piece, s.columns))
  {
    forall v | v in g.owner && g.owner[v] < k && !g.ops[g.owner[v]].strongOut && UsedFor(g, k, v)
      ensures Value(m, Copied(piece, s.columns), v) == Meaning(m, tr, v)
    {
      if v.isVoid {
        VoidMeansNothing(m, g, tr, v);
      } else {
        assert Needed(g, k, v);
        assert LinkedProperly(g, k);
        if v in g.ops[k].sources {
          assert Outside(g, k, k + 1, v);
        }
      }
    }
  }

  /** The producer of the strong link runs again in front of its consumer, with the same result and no other effect. */
  lemma PartnerRunsAgain(m: Machine, g: Graph, tr: Trace, k: nat, start: State)
    requires WellFormed(g) && Faithful(m) && Follows(m, g, tr) && k < |g.ops| && g.ops[k].strongIn
    requires WeakSupplied(m, g, tr, k, start.columns) && Agrees(m, g, tr, start.columns)
    ensures var at := Exec(m, g.ops[Partner(g, k)], start);
      && Agrees(m, g, tr, at.columns) && at.world == start.world
      && forall v :: v in start.columns || IsHandle(g, k, v) ==> v in at.columns
  {
    var p := Partner(g, k);
    assert LinkedProperly(g, k) && LinkedProperly(g, p);
    forall v | v in g.ops[p].sources ensures Value(m, start.columns, v) == Meaning(m, tr, v) {
      var i :| 0 <= i < |g.ops[p].sources| && g.ops[p].sources[i] == v;
      assert !g.ops[g.owner[v]].strongOut;
      assert UsedFor(g, k, v);
    }
    ExecMeans(m, g, tr, p, start);
  }

  /** In front of an interpreted suboperator its inputs are right, whether its strong producer had to be attached or not. */
  lemma InterpretedPieceSupplied(m: Machine, g: Graph, tr: Trace, k: nat, copied: map<IU, Column>, columns: map<IU, Column>)
    requires WellFormed(g) && k < |g.ops| && WeakSupplied(m, g, tr, k, copied)
    requires Agrees(m, g, tr, columns) && forall v :: v in copied ==> v in columns
    requires forall v :: IsHandle(g, k, v) ==> v in columns
    ensures Supplied(m, g, tr, k, k + 1, columns)
  {
    forall v | v in g.ops[k].sources ensures Value(m, columns, v) == Meaning(m, tr, v) {
      var i :| 0 <= i < |g.ops[k].sources| && g.ops[k].sources[i] == v;
      assert LinkedProperly(g, k);
      if !g.ops[g.owner[v]].strongOut {
        assert UsedFor(g, k, v);
      }
    }
  }

  /** What the attached producer, if there is one, leaves in front of the interpreted suboperator. */
  lemma InterpretedPieceStarts(m: Machine, g: Graph, tr: Trace, k: nat, piece: Piece, s: State) returns (at: State)
    requires WellFormed(g) && Faithful(m) && Follows(m, g, tr) && k < |g.ops| && Keeps(m, g, tr, k, s)
    requires piece.ops == Attached(g, k) + g.ops[k..k + 1]
    requires forall v :: v in piece.inputs <==> !v.isVoid && Misses(g, k, k + 1, v)
    ensures at == ExecAll(m, piece.ops, |Attached(g, k)|, State(Copied(piece, s.columns), s.world))
    ensures Ran(m, g, tr, k, k, at) && Supplied(m, g, tr, k, k + 1, at.columns)
  {
    var start := State(Copied(piece, s.columns), s.world);
    at := ExecAll(m, piece.ops, |Attached(g, k)|, start);
    StoreSupplies(m, g, tr, k, piece, s);
    if g.ops[k].strongIn {
      PartnerRunsAgain(m, g, tr, k, start);
      OneMore(m, piece.ops, 0, start);
    }
    InterpretedPieceSupplied(m, g, tr, k, start.columns, at.columns);
  }

  /** An interpreted suboperator does what it does in the whole pipeline. */
  lemma InterpretedPieceRuns(m: Machine, g: Graph, tr: Trace, k: nat, piece: Piece, s: State)
    requires WellFormed(g) && Faithful(m) && Follows(m, g, tr) && k < |g.ops| && !g.ops[k].strongOut && Keeps(m, g, tr, k, s)
    requires IsPiece(g, k, k + 1, piece.sinks, piece)
    ensures Ran(m, g, tr, k, k + 1, RunOps(m, piece, s))
  {
    var at := InterpretedPieceStarts(m, g, tr, k, piece, s);
    assert piece.ops[|Attached(g, k)|..] == g.ops[k..k + 1];
    PieceRunsToEnd(m, g, tr, k, k + 1, piece, |Attached(g, k)|, s, at);
  }

  lemma InterpretedPieceKeeps(m: Machine, g: Graph, tr: Trace, k: nat, sinks: set<IU>, piece: Piece, s: State)
    requires WellFormed(g) && Faithful(m) && Follows(m, g, tr) && k < |g.ops| && !g.ops[k].strongOut && Keeps(m, g, tr, k, s)
    requires IsPiece(g, k, k + 1, sinks, piece) && AllSinks(g, k, k + 1, sinks)
    ensures Keeps(m, g, tr, k + 1, RunPiece(m, piece, s))
  {
    InterpretedPieceRuns(m, g, tr, k, piece, s);
    PieceStores(m, g, tr, k, k + 1, piece, s);
  }

  /** The producer of a strong link has no interpreter of its own, and leaving it out loses nothing. */
  lemma SkippingKeeps(m: Machine, g: Graph, tr: Trace, k: nat, s: State)
    requires WellFormed(g) && Faithful(m) && Follows(m, g, tr) && k < |g.ops| && g.ops[k].strongOut && Keeps(m, g, tr, k, s)
    ensures Keeps(m, g, tr, k + 1, s)
  {
    assert FollowsAt(m, g, tr, k);
  }

  // ---------------------------------------------------------------------------------------------
  // Plans
  // ---------------------------------------------------------------------------------------------

  /** How to run a part of a pipeline: compiled from `start` on, or one suboperator interpreted. */
  datatype Segment = Jit(start: nat) | Interpreted

  /** The segments cover the first `n` suboperators, and compiled ones keep strong links together. */
  ghost predicate IsPlan(g: Graph, plan: seq<Segment>, n: nat)
    requires WellFormed(g) && n <= |g.ops|
  {
    if plan == [] then n == 0
    else
      var init := plan[..|plan| - 1];
      match plan[|plan| - 1]
      case Jit(start) => start <= n && KeepsLinksTogether(g, start, n) && IsPlan(g, init, start)
      case Interpreted => n > 0 && IsPlan(g, init, n - 1)
  }

  /** The range of a segment: it ends where the next one starts, the last one at `n`. */
  function EndOf(plan: seq<Segment>, n: int, i: nat): int
    requires i < |plan|
    decreases |plan| - i, 0
  {
    if i == |plan| - 1 then n else StartOf(plan, n, i + 1)
  }

  function StartOf(plan: seq<Segment>, n: int, i: nat): int
    requires i < |plan|
    decreases |plan| - i, 1
  {
    match plan[i]
    case Jit(start) => start
    case Interpreted => EndOf(plan, n, i) - 1
  }

  lemma {:induction false} RangesOfPrefix(plan: seq<Segment>, n: int, i: nat)
    requires i < |plan| - 1
    ensures var init, start := plan[..|plan| - 1], StartOf(plan, n, |plan| - 1);
      EndOf(init, start, i) == EndOf(plan, n, i) && StartOf(init, start, i) == StartOf(plan, n, i)
    decreases |plan| - i
  {
    if i + 1 < |plan| - 1 {
      RangesOfPrefix(plan, n, i + 1);
    }
  }

  /** The pieces of a plan. The entry of a suboperator without interpreter is not used. */
  ghost predicate ArePieces(g: Graph, plan: seq<Segment>, pieces: seq<Piece>, n: nat)
    requires WellFormed(g) && n <= |g.ops| && IsPlan(g, plan, n)
  {
    && |pieces| == |plan|
    && (plan != [] ==>
          var init, last := |plan| - 1, pieces[|plan| - 1];
          match plan[init]
          case Jit(start) => IsSegmentPiece(g, start, n, true, last) && ArePieces(g, plan[..init], pieces[..init], start)
          case Interpreted =>
            && (!g.ops[n - 1].strongOut ==> IsSegmentPiece(g, n - 1, n, false, last))
            && ArePieces(g, plan[..init], pieces[..init], n - 1))
  }

  /** Runs the pieces in order over a shared store. */
  ghost function RunPlan(m: Machine, g: Graph, plan: seq<Segment>, pieces: seq<Piece>, n: nat, s: State): State
    requires WellFormed(g) && n <= |g.ops| && IsPlan(g, plan, n) && |pieces| == |plan|
  {
    if plan == [] then s
    else
      var init, last := |plan| - 1, pieces[|plan| - 1];
      match plan[init]
      case Jit(start) => RunPiece(m, last, RunPlan(m, g, plan[..init], pieces[..init], start, s))
      case Interpreted =>
        var before := RunPlan(m, g, plan[..init], pieces[..init], n - 1, s);
        if g.ops[n - 1].strongOut then before else RunPiece(m, last, before)
  }

  lemma {:induction false} PlanKeeps(m: Machine, g: Graph, tr: Trace, plan: seq<Segment>, pieces: seq<Piece>, n: nat, w: World)
    requires WellFormed(g) && Faithful(m) && Follows(m, g, tr) && tr.worlds(0) == w
    requires n <= |g.ops| && IsPlan(g, plan, n) && ArePieces(g, plan, pieces, n)
    ensures Keeps(m, g, tr, n, RunPlan(m, g, plan, pieces, n, State(map[], w)))
  {
    if plan != [] {
      var init, last := |plan| - 1, pieces[|plan| - 1];
      var start := if plan[init].Jit? then plan[init].start else n - 1;
      PlanKeeps(m, g, tr, plan[..init], pieces[..init], start, w);
      var before := RunPlan(m, g, plan[..init], pieces[..init], start, State(map[], w));
      if plan[init].Interpreted? && g.ops[n - 1].strongOut {
        SkippingKeeps(m, g, tr, n - 1, before);
      } else if start < n {
        if plan[init].Jit? {
          JitPieceKeeps(m, g, tr, start, n, last.sinks, last, before);
        } else {
          InterpretedPieceKeeps(m, g, tr, start, last.sinks, last, before);
        }
      }
    }
  }

  lemma LastSegment(g: Graph, plan: seq<Segment>, n: nat) returns (start: nat)
    requires WellFormed(g) && n <= |g.ops| && IsPlan(g, plan, n) && plan != []
    ensures EndOf(plan, n, |plan| - 1) == n && start == StartOf(plan, n, |plan| - 1) <= n
    ensures IsPlan(g, plan[..|plan| - 1], start)
    ensures match plan[|plan| - 1] case Jit(_) => KeepsLinksTogether(g, start, n) case Interpreted => start == n - 1
  {
    start := if plan[|plan| - 1].Jit? then plan[|plan| - 1].start else n - 1;
  }

  lemma {:induction false} RangeInside(g: Graph, plan: seq<Segment>, n: nat, i: nat)
    requires WellFormed(g) && n <= |g.ops| && IsPlan(g, plan, n) && i < |plan|
    ensures 0 <= StartOf(plan, n, i) <= EndOf(plan, n, i) <= n
  {
    if i < |plan| - 1 {
      var start := LastSegment(g, plan, n);
      RangesOfPrefix(plan, n, i);
      RangeInside(g, plan[..|plan| - 1], start, i);
    }
  }

  ghost predicate InSegment(g: Graph, plan: seq<Segment>, n: nat, i: nat, v: IU)
    requires i < |plan|
  {
    v in g.owner && StartOf(plan, n, i) <= g.owner[v] < EndOf(plan, n, i)
  }

  /** Every column belongs to a segment. */
  lemma {:induction false} FindSegment(g: Graph, plan: seq<Segment>, n: nat, v: IU) returns (i: nat)
    requires WellFormed(g) && n <= |g.ops| && IsPlan(g, plan, n) && v in g.owner && g.owner[v] < n
    ensures i < |plan| && InSegment(g, plan, n, i, v)
  {
    var last := |plan| - 1;
    var start := LastSegment(g, plan, n);
    if start <= g.owner[v] {
      i := last;
    } else {
      i := FindSegment(g, plan[..last], start, v);
      RangesOfPrefix(plan, n, i);
    }
  }

  /** What a segment that ends at `end` leaves in the store: compiled what is used behind it, interpreted everything. */
  ghost predicate Stays(g: Graph, compiled: bool, end: int, v: IU)
    requires SingleAssignment(g) && v in g.owner
  {
    && !v.isVoid
    && if compiled then exists k :: 0 <= end <= k < |g.ops| && v in g.ops[k].sources else !g.ops[g.owner[v]].strongOut
  }

  /** A piece that ran like its range adds its sinks to the store, no more and no less. */
  lemma SinksAreStored(m: Machine, g: Graph, tr: Trace, start: nat, end: nat, piece: Piece, s: State, v: IU)
    requires SingleAssignment(g) && end <= |g.ops| && Ran(m, g, tr, start, end, RunOps(m, piece, s))
    requires forall u :: u in piece.sinks ==> u in g.owner && start <= g.owner[u] < end
    ensures v in RunPiece(m, piece, s).columns <==> v in s.columns || v in piece.sinks
  {
  }

  lemma PieceAdds(m: Machine, g: Graph, tr: Trace, compiled: bool, start: nat, end: nat, piece: Piece, s: State, v: IU)
    requires WellFormed(g) && Faithful(m) && Follows(m, g, tr) && start < end <= |g.ops| && Keeps(m, g, tr, start, s)
    requires IsSegmentPiece(g, start, end, compiled, piece)
    requires if compiled then KeepsLinksTogether(g, start, end) else end == start + 1 && !g.ops[start].strongOut
    ensures v in RunPiece(m, piece, s).columns
       <==> v in s.columns || (v in g.owner && start <= g.owner[v] < end && Stays(g, compiled, end, v))
  {
    if compiled {
      JitPieceRuns(m, g, tr, start, end, piece, s);
    } else {
      InterpretedPieceRuns(m, g, tr, start, piece, s);
    }
    SinksAreStored(m, g, tr, start, end, piece, s, v);
  }

  /** What the last segment of a plan adds to the store. */
  lemma LastAdds(m: Machine, g: Graph, tr: Trace, seg: Segment, last: Piece, start: nat, n: nat, before: State, v: IU)
    requires WellFormed(g) && Faithful(m) && Follows(m, g, tr) && start <= n <= |g.ops| && Keeps(m, g, tr, start, before)
    requires match seg case Jit(_) => KeepsLinksTogether(g, start, n) case Interpreted => start == n - 1
    requires (seg.Interpreted? && g.ops[n - 1].strongOut) || IsSegmentPiece(g, start, n, seg.Jit?, last)
    ensures v in (if seg.Interpreted? && g.ops[n - 1].strongOut then before else RunPiece(m, last, before)).columns
       <==> v in before.columns || (v in g.owner && start <= g.owner[v] < n && Stays(g, seg.Jit?, n, v))
  {
    if start < n && !(seg.Interpreted? && g.ops[n - 1].strongOut) {
      PieceAdds(m, g, tr, seg.Jit?, start, n, last, before, v);
    }
  }

  lemma {:induction false} StoredIff(m: Machine, g: Graph, tr: Trace, plan: seq<Segment>, pieces: seq<Piece>, n: nat, w: World,
                                     v: IU)
    requires WellFormed(g) && Faithful(m) && Follows(m, g, tr) && tr.worlds(0) == w && n <= |g.ops|
    requires IsPlan(g, plan, n) && ArePieces(g, plan, pieces, n)
    ensures v in RunPlan(m, g, plan, pieces, n, State(map[], w)).columns ==> v in g.owner && g.owner[v] < n
    ensures forall i :: 0 <= i < |plan| && InSegment(g, plan, n, i, v) ==>
      (v in RunPlan(m, g, plan, pieces, n, State(map[], w)).columns <==> Stays(g, plan[i].Jit?, EndOf(plan, n, i), v))
  {
    if plan != [] {
      var last := |plan| - 1;
      var start := LastSegment(g, plan, n);
      var init := plan[..last];
      StoredIff(m, g, tr, init, pieces[..last], start, w, v);
      PlanKeeps(m, g, tr, init, pieces[..last], start, w);
      LastAdds(m, g, tr, plan[last], pieces[last], start, n, RunPlan(m, g, init, pieces[..last], start, State(map[], w)), v);
      SegmentsSplit(g, plan, n, init, start, v);
    }
  }

  /** A column belongs to the last segment, or to one of the others, and is then defined before the last one starts. */
  lemma SegmentsSplit(g: Graph, plan: seq<Segment>, n: nat, init: seq<Segment>, start: nat, v: IU)
    requires WellFormed(g) && n <= |g.ops| && IsPlan(g, plan, n) && plan != []
    requires init == plan[..|plan| - 1] && start == StartOf(plan, n, |plan| - 1) && start <= n && IsPlan(g, init, start)
    ensures forall i :: 0 <= i < |plan| && InSegment(g, plan, n, i, v) ==>
      if i == |plan| - 1 then start <= g.owner[v] < n && EndOf(plan, n, i) == n
      else g.owner[v] < start && InSegment(g, init, start, i, v) && EndOf(init, start, i) == EndOf(plan, n, i)
  {
    forall i | 0 <= i < |plan| && InSegment(g, plan, n, i, v)
      ensures if i == |plan| - 1 then start <= g.owner[v] < n && EndOf(plan, n, i) == n
        else g.owner[v] < start && InSegment(g, init, start, i, v) && EndOf(init, start, i) == EndOf(plan, n, i)
    {
      if i < |plan| - 1 {
        RangesOfPrefix(plan, n, i);
        RangeInside(g, init, start, i);
      }
    }
  }

  /**
   * Main theorem: fused as one piece, interpreted one by one, or in any mixture of the two whose compiled pieces keep
   * strong links together, a pipeline has the same effects, and every stored column has the same value. In the end the store
   * has of every interpreted segment all columns with a value and a weak producer, and of every compiled one those that are
   * used behind it.
   */
  lemma CuttingPreservesMeaning(m: Machine, g: Graph, w: World, plan: seq<Segment>, pieces: seq<Piece>)
    requires WellFormed(g) && Faithful(m) && IsPlan(g, plan, |g.ops|) && ArePieces(g, plan, pieces, |g.ops|)
    ensures var end, whole := RunPlan(m, g, plan, pieces, |g.ops|, State(map[], w)), Whole(m, g, |g.ops|, w);
      && end.world == whole.world
      && (forall v :: v in end.columns ==> v in whole.columns && end.columns[v] == whole.columns[v])
      && (forall i, v :: 0 <= i < |plan| && InSegment(g, plan, |g.ops|, i, v) ==>
            (v in end.columns <==>
               && !v.isVoid
               && if plan[i].Jit? then exists k :: EndOf(plan, |g.ops|, i) <= k < |g.ops| && v in g.ops[k].sources
                  else !g.ops[g.owner[v]].strongOut))
  {
    WholeFollows(m, g, w);
    WholeProvides(m, g, w, |g.ops|);
    var tr, end := WholeTrace(m, g, w), RunPlan(m, g, plan, pieces, |g.ops|, State(map[], w));
    PlanKeeps(m, g, tr, plan, pieces, |g.ops|, w);
    EndOfPlan(m, g, tr, Whole(m, g, |g.ops|, w), end);
    forall i, v | 0 <= i < |plan| && InSegment(g, plan, |g.ops|, i, v)
      ensures v in end.columns <==>
        && !v.isVoid
        && if plan[i].Jit? then exists k :: EndOf(plan, |g.ops|, i) <= k < |g.ops| && v in g.ops[k].sources
           else !g.ops[g.owner[v]].strongOut
    {
      StoredIff(m, g, tr, plan, pieces, |g.ops|, w, v);
      RangeInside(g, plan, |g.ops|, i);
    }
  }

  lemma EndOfPlan(m: Machine, g: Graph, tr: Trace, whole: State, end: State)
    requires SingleAssignment(g) && Provides(g, |g.ops|, whole.columns) && tr.values == whole.columns
    requires end.world == tr.worlds(|g.ops|) == whole.world && Agrees(m, g, tr, end.columns)
    ensures end.world == whole.world
    ensures forall v :: v in end.columns ==> v in whole.columns && end.columns[v] == whole.columns[v]
  {
  }

  /**
   * Main theorem on `repipeAll`: run on its own, the piece for a range stores every column of the range that has a value and
   * a weak producer, with the value that it has in the whole pipeline, and nothing else.
   */
  lemma RepipeAllStores(m: Machine, g: Graph, w: World, start: nat, end: nat, piece: Piece, s: State)
    requires WellFormed(g) && Faithful(m) && start < end <= |g.ops| && KeepsLinksTogether(g, start, end)
    requires IsSegmentPiece(g, start, end, false, piece) && Keeps(m, g, WholeTrace(m, g, w), start, s)
    ensures RunPiece(m, piece, s).world == Whole(m, g, end, w).world
    ensures var after, whole := RunPiece(m, piece, s), Whole(m, g, |g.ops|, w);
      forall v ::
        (v in after.columns <==>
           v in s.columns || (!v.isVoid && v in g.owner && start <= g.owner[v] < end && !g.ops[g.owner[v]].strongOut))
        && (v in after.columns ==> v in whole.columns && after.columns[v] == whole.columns[v])
  {
    var tr := WholeTrace(m, g, w);
    WholeFollows(m, g, w);
    WholeProvides(m, g, w, |g.ops|);
    JitPieceRuns(m, g, tr, start, end, piece, s);
    forall v ensures v in RunPiece(m, piece, s).columns <==> v in s.columns || v in piece.sinks {
      SinksAreStored(m, g, tr, start, end, piece, s, v);
    }
  }

  /** Repiped as a whole, a pipeline runs like itself, and stores all columns but those of void type or strong producers. */
  lemma RepipedWholeRuns(m: Machine, g: Graph, w: World, piece: Piece)
    requires WellFormed(g) && Faithful(m) && |g.ops| > 0 && IsSegmentPiece(g, 0, |g.ops|, false, piece)
    ensures RunPiece(m, piece, State(map[], w)).world == Whole(m, g, |g.ops|, w).world
    ensures var after, whole := RunPiece(m, piece, State(map[], w)).columns, Whole(m, g, |g.ops|, w).columns;
      forall v ::
        (v in after <==> v in g.owner && !v.isVoid && !g.ops[g.owner[v]].strongOut)
        && (v in after ==> v in whole && after[v] == whole[v])
  {
    forall k | 0 <= k < |g.ops| && g.ops[k].strongIn ensures Partner(g, k) < |g.ops| {
      assert LinkedProperly(g, k);
    }
    WholeProvides(m, g, w, |g.ops|);
    RepipeAllStores(m, g, w, 0, |g.ops|, piece, State(map[], w));
  }

  /** The two pure modes are plans. */
  lemma FusedIsPlan(g: Graph)
    requires WellFormed(g)
    ensures IsPlan(g, [Jit(0)], |g.ops|)
  {
    forall k | 0 <= k < |g.ops| && g.ops[k].strongIn ensures Partner(g, k) < |g.ops| {
      assert LinkedProperly(g, k);
    }
    assert [Jit(0)][..0] == [];
  }

  lemma {:induction false} InterpretedIsPlan(g: Graph, n: nat)
    requires WellFormed(g) && n <= |g.ops|
    ensures IsPlan(g, seq(n, (k: int) => Interpreted), n)
  {
    if n != 0 {
      InterpretedIsPlan(g, n - 1);
      assert seq(n, (k: int) => Interpreted)[..n - 1] == seq(n - 1, (k: int) => Interpreted);
    }
  }
}
