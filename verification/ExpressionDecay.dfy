/**
 * Lowering a DAG of expressions with shared nodes to a linear program of suboperators. Nodes are numbered in the order of
 * their construction, so that children come before their parents.
 */
module ExpressionDecay {
  import opened Options

  type IU(==, !new)
  type Code(==, !new)
  type Value(==, !new)

  /** A reference to an incoming column, or a computation with its own output and maybe a constant argument. */
  datatype Node = Ref(iu: IU) | Compute(code: Code, children: seq<nat>, out: IU, param: Option<Value>)

  datatype Subop = Subop(code: Code, sources: seq<IU>, out: IU, param: Option<Value>)

  function Out(node: Node): IU {
    match node
    case Ref(iu) => iu
    case Compute(_, _, out, _) => out
  }

  /** No cycles; every computation has an output of its own. */
  ghost predicate WellFormed(nodes: seq<Node>) {
    && (forall k, i :: 0 <= k < |nodes| && nodes[k].Compute? && 0 <= i < |nodes[k].children| ==> nodes[k].children[i] < k)
    && (forall j, k :: 0 <= j < |nodes| && 0 <= k < |nodes| && nodes[k].Compute? && Out(nodes[j]) == nodes[k].out ==> j == k)
  }

  // ---------------------------------------------------------------------------------------------
  // The meaning of expressions and of programs
  // ---------------------------------------------------------------------------------------------

  /** What operations compute; abstract. */
  type Semantics = (Code, seq<Value>, Option<Value>) -> Value

  /** The recursive value of a node. */
  function Eval(sem: Semantics, nodes: seq<Node>, env: IU -> Value, k: nat): Value
    requires WellFormed(nodes) && k < |nodes|
    decreases k, 1, 0
  {
    match nodes[k]
    case Ref(iu) => env(iu)
    case Compute(code, children, _, param) => sem(code, EvalChildren(sem, nodes, env, k, |children|), param)
  }

  function EvalChildren(sem: Semantics, nodes: seq<Node>, env: IU -> Value, k: nat, n: nat): (values: seq<Value>)
    requires WellFormed(nodes) && k < |nodes| && nodes[k].Compute? && n <= |nodes[k].children|
    ensures |values| == n
    decreases k, 0, n
  {
    if n == 0 then []
    else EvalChildren(sem, nodes, env, k, n - 1) + [Eval(sem, nodes, env, nodes[k].children[n - 1])]
  }

  /** Runs the first `n` suboperators, each on the columns computed so far. */
  ghost function Run(sem: Semantics, program: seq<Subop>, n: nat, env: IU -> Value): IU -> Value
    requires n <= |program|
  {
    if n == 0 then env
    else
      var before := Run(sem, program, n - 1, env);
      var op := program[n - 1];
      var result := sem(op.code, Sources(op.sources, before), op.param);
      (iu: IU) => if iu == op.out then result else before(iu)
  }

  function Sources(sources: seq<IU>, env: IU -> Value): seq<Value> {
    seq(|sources|, i requires 0 <= i < |sources| => env(sources[i]))
  }

  /** The nodes that an expression consists of. */
  function Reach(nodes: seq<Node>, k: nat): (reach: set<nat>)
    requires WellFormed(nodes) && k < |nodes|
    ensures k in reach && forall j :: j in reach ==> j <= k
    decreases k, 1, 0
  {
    {k} + if nodes[k].Ref? then {} else ReachChildren(nodes, k, |nodes[k].children|)
  }

  function ReachChildren(nodes: seq<Node>, k: nat, n: nat): (reach: set<nat>)
    requires WellFormed(nodes) && k < |nodes| && nodes[k].Compute? && n <= |nodes[k].children|
    ensures forall j :: j in reach ==> j < k
    decreases k, 0, n
  {
    if n == 0 then {} else ReachChildren(nodes, k, n - 1) + Reach(nodes, nodes[k].children[n - 1])
  }

  /** A set that contains the children of its computations. */
  ghost predicate ClosedUnder(nodes: seq<Node>, done: set<nat>) {
    forall k, i :: k in done && k < |nodes| && nodes[k].Compute? && 0 <= i < |nodes[k].children| ==> nodes[k].children[i] in done
  }

  lemma {:induction false} ClosedContainsReach(nodes: seq<Node>, done: set<nat>, k: nat)
    requires WellFormed(nodes) && ClosedUnder(nodes, done) && k in done && k < |nodes|
    ensures Reach(nodes, k) <= done
    decreases k
  {
    if nodes[k].Compute? {
      for n := 0 to |nodes[k].children|
        invariant ReachChildren(nodes, k, n) <= done
      {
        ClosedContainsReach(nodes, done, nodes[k].children[n]);
      }
    }
  }

  // ---------------------------------------------------------------------------------------------
  // Lowering
  // ---------------------------------------------------------------------------------------------

  function Outs(nodes: seq<Node>, children: seq<nat>, n: nat): seq<IU>
    requires n <= |children| && forall i :: 0 <= i < n ==> children[i] < |nodes|
  {
    if n == 0 then [] else Outs(nodes, children, n - 1) + [Out(nodes[children[n - 1]])]
  }

  /** The suboperator of a computation reads the outputs of its children, in order. */
  function SubopOf(nodes: seq<Node>, k: nat): Subop
    requires WellFormed(nodes) && k < |nodes| && nodes[k].Compute?
  {
    var node := nodes[k];
    Subop(node.code, Outs(nodes, node.children, |node.children|), node.out, node.param)
  }

  /**
   * `order` lists the computations that have been emitted, `open` those whose children are still being processed. Everything
   * else that was visited is finished, and so are its children, with their suboperators in front of its own.
   */
  ghost predicate Lowered(nodes: seq<Node>, built: map<nat, IU>, program: seq<Subop>, order: seq<nat>, open: set<nat>) {
    && WellFormed(nodes)
    && (forall k :: k in built ==> k < |nodes| && built[k] == Out(nodes[k]))
    && (forall k :: k in open ==> k in built && nodes[k].Compute?)
    && |program| == |order|
    && (forall i :: 0 <= i < |order| ==> Emitted(nodes, built, program, order, open, i))
    && (forall i, j :: 0 <= i < j < |order| ==> order[i] != order[j])
    && (forall k :: k in built && k !in open && nodes[k].Compute? ==> k in order)
  }

  ghost predicate Emitted(nodes: seq<Node>, built: map<nat, IU>, program: seq<Subop>, order: seq<nat>, open: set<nat>, i: nat)
    requires WellFormed(nodes) && i < |order| == |program|
  {
    var k := order[i];
    && k in built && k !in open && k < |nodes| && nodes[k].Compute? && program[i] == SubopOf(nodes, k)
    && forall c :: 0 <= c < |nodes[k].children| ==> Available(nodes, built, order, i, nodes[k].children[c])
  }

  /** An operand is an incoming column, or its suboperator is among the first `i`. */
  ghost predicate Available(nodes: seq<Node>, built: map<nat, IU>, order: seq<nat>, i: nat, child: nat)
    requires i <= |order|
  {
    child in built && child < |nodes| && (nodes[child].Ref? || child in order[..i])
  }

  class Decay {
    const nodes: seq<Node>
    /** Which nodes were processed already, and the column that holds their value. */
    var built: map<nat, IU>
    var program: seq<Subop>
    ghost var order: seq<nat>

    constructor (nodes: seq<Node>)
      requires WellFormed(nodes)
      ensures this.nodes == nodes && built == map[] && program == [] && order == []
      ensures Lowered(nodes, built, program, order, {})
    {
      this.nodes, this.built, this.program, this.order := nodes, map[], [], [];
    }

    /**
     * Processes one node. It is registered before its children, emitted after them, and skipped if it was seen before.
     */
    method DecayNode(k: nat, ghost open: set<nat>)
      requires k < |nodes| && Lowered(nodes, built, program, order, open)
      requires forall j :: j in open ==> j > k
      modifies this
      ensures Lowered(nodes, built, program, order, open)
      ensures Extends(old(built), old(order), built, order, Reach(nodes, k)) && k in built
      decreases k, 1
    {
      if k in built {
        return;
      }
      match nodes[k]
      case Ref(iu) =>
        VisitReference(nodes, built, program, order, open, k);
        built := built[k := iu];
      case Compute(code, children, out, param) =>
        OpenNode(nodes, built, program, order, open, k);
        built := built[k := out];
        var sources := DecayChildren(k, open + {k});
        CloseNode(nodes, built, program, order, open, k);
        program, order := program + [Subop(code, sources, out, param)], order + [k];
    }

    /** Processes the children of a node, and collects the columns of their values. */
    method DecayChildren(k: nat, ghost open: set<nat>) returns (sources: seq<IU>)
      requires k < |nodes| && nodes[k].Compute? && Lowered(nodes, built, program, order, open)
      requires k in open && forall j :: j in open ==> j >= k
      modifies this
      ensures Lowered(nodes, built, program, order, open)
      ensures Extends(old(built), old(order), built, order, ReachChildren(nodes, k, |nodes[k].children|))
      ensures sources == Outs(nodes, nodes[k].children, |nodes[k].children|)
      ensures forall c :: 0 <= c < |nodes[k].children| ==> Available(nodes, built, order, |order|, nodes[k].children[c])
      decreases k, 0
    {
      var children := nodes[k].children;
      sources := [];
      assert order[..|order|] == order;
      for i := 0 to |children|
        invariant Lowered(nodes, built, program, order, open)
        invariant sources == Outs(nodes, children, i)
        invariant Extends(old(built), old(order), built, order, ReachChildren(nodes, k, i))
        invariant forall c :: 0 <= c < i ==> Available(nodes, built, order, |order|, children[c])
      {
        ghost var before, was := order, built;
        DecayNode(children[i], open);
        StillAvailable(nodes, was, built, before, order, children, i);
        ChildAvailable(nodes, built, program, order, open, children[i]);
        ExtendsOn(old(built), old(order), was, before, built, order, ReachChildren(nodes, k, i), Reach(nodes, children[i]));
        sources := sources + [built[children[i]]];
      }
    }

    /** Lowers all output nodes. */
    method DecayAll(roots: seq<nat>)
      requires WellFormed(nodes) && built == map[] && program == [] && order == []
      requires forall r :: 0 <= r < |roots| ==> roots[r] < |nodes|
      modifies this
      ensures Lowered(nodes, built, program, order, {})
      ensures forall r :: 0 <= r < |roots| ==> roots[r] in built
      ensures forall j :: j in built ==> j in ReachAny(nodes, roots, |roots|)
    {
      for i := 0 to |roots|
        invariant Lowered(nodes, built, program, order, {})
        invariant forall r :: 0 <= r < i ==> roots[r] in built
        invariant forall j :: j in built ==> j in ReachAny(nodes, roots, i)
      {
        DecayNode(roots[i], {});
      }
    }
  }

  /** The nodes of the first `n` outputs. */
  function ReachAny(nodes: seq<Node>, roots: seq<nat>, n: nat): set<nat>
    requires WellFormed(nodes) && n <= |roots| && forall r :: 0 <= r < n ==> roots[r] < |nodes|
  {
    if n == 0 then {} else ReachAny(nodes, roots, n - 1) + Reach(nodes, roots[n - 1])
  }

  /** Nothing is forgotten, and only nodes of `extra` are new. */
  ghost predicate Extends(built: map<nat, IU>, order: seq<nat>, built': map<nat, IU>, order': seq<nat>, extra: set<nat>) {
    && (forall j :: j in built ==> j in built')
    && (forall j :: j in built' ==> j in built || j in extra)
    && |order| <= |order'| && order'[..|order|] == order
  }

  lemma ExtendsOn(built: map<nat, IU>, order: seq<nat>, built': map<nat, IU>, order': seq<nat>,
                  built'': map<nat, IU>, order'': seq<nat>, extra: set<nat>, more: set<nat>)
    requires Extends(built, order, built', order', extra) && Extends(built', order', built'', order'', more)
    ensures Extends(built, order, built'', order'', extra + more)
  {
    assert order''[..|order'|][..|order|] == order''[..|order|];
  }

  lemma VisitReference(nodes: seq<Node>, built: map<nat, IU>, program: seq<Subop>, order: seq<nat>, open: set<nat>, k: nat)
    requires Lowered(nodes, built, program, order, open) && k < |nodes| && k !in built && nodes[k].Ref?
    ensures Lowered(nodes, built[k := Out(nodes[k])], program, order, open)
  {
    var built', open' := built[k := Out(nodes[k])], open;
    forall i | 0 <= i < |order| ensures Emitted(nodes, built', program, order, open', i) {
      assert Emitted(nodes, built, program, order, open, i);
    }
  }

  lemma OpenNode(nodes: seq<Node>, built: map<nat, IU>, program: seq<Subop>, order: seq<nat>, open: set<nat>, k: nat)
    requires Lowered(nodes, built, program, order, open) && k < |nodes| && k !in built && nodes[k].Compute?
    ensures Lowered(nodes, built[k := Out(nodes[k])], program, order, open + {k})
  {
    var built', open' := built[k := Out(nodes[k])], open + {k};
    forall i | 0 <= i < |order| ensures Emitted(nodes, built', program, order, open', i) {
      assert Emitted(nodes, built, program, order, open, i);
    }
  }

  lemma StillAvailable(nodes: seq<Node>, built: map<nat, IU>, built': map<nat, IU>, order: seq<nat>, order': seq<nat>,
                       children: seq<nat>, n: nat)
    requires n <= |children| && forall c :: 0 <= c < n ==> Available(nodes, built, order, |order|, children[c])
    requires forall j :: j in built ==> j in built'
    requires |order| <= |order'| && order'[..|order|] == order
    ensures forall c :: 0 <= c < n ==> Available(nodes, built', order', |order'|, children[c])
  {
    forall c | 0 <= c < n ensures Available(nodes, built', order', |order'|, children[c]) {
      assert Available(nodes, built, order, |order|, children[c]);
      if children[c] in order[..|order|] {
        var i :| 0 <= i < |order| && order[..|order|][i] == children[c];
        assert order'[i] == order'[..|order|][i] == order[i];
      }
    }
  }

  lemma ChildAvailable(nodes: seq<Node>, built: map<nat, IU>, program: seq<Subop>, order: seq<nat>, open: set<nat>, child: nat)
    requires Lowered(nodes, built, program, order, open) && child in built && child !in open
    ensures Available(nodes, built, order, |order|, child)
  {
    assert order[..|order|] == order;
  }

  lemma CloseNode(nodes: seq<Node>, built: map<nat, IU>, program: seq<Subop>, order: seq<nat>, open: set<nat>, k: nat)
    requires Lowered(nodes, built, program, order, open + {k}) && k in built && k !in open && nodes[k].Compute?
    requires forall c :: 0 <= c < |nodes[k].children| ==> Available(nodes, built, order, |order|, nodes[k].children[c])
    ensures Lowered(nodes, built, program + [SubopOf(nodes, k)], order + [k], open)
  {
    var program', order' := program + [SubopOf(nodes, k)], order + [k];
    forall i | 0 <= i < |order'| ensures Emitted(nodes, built, program', order', open, i) {
      assert order'[..i] == order[..i];
      if i < |order| {
        assert Emitted(nodes, built, program, order, open + {k}, i);
      }
    }
    forall i | 0 <= i < |order| ensures order[i] != k {
      assert Emitted(nodes, built, program, order, open + {k}, i);
    }
  }

  // ---------------------------------------------------------------------------------------------
  // What the program computes
  // ---------------------------------------------------------------------------------------------

  /** Exactly the nodes of the outputs are processed. */
  lemma BuiltIsReachable(nodes: seq<Node>, built: map<nat, IU>, program: seq<Subop>, order: seq<nat>, roots: seq<nat>)
    requires Lowered(nodes, built, program, order, {})
    requires forall r :: 0 <= r < |roots| ==> roots[r] in built
    requires forall j :: j in built ==> j in ReachAny(nodes, roots, |roots|)
    ensures built.Keys == ReachAny(nodes, roots, |roots|)
  {
    for n := 0 to |roots|
      invariant ReachAny(nodes, roots, n) <= built.Keys
    {
      forall k | k in Reach(nodes, roots[n]) ensures k in built {
        ReachIsBuilt(nodes, built, program, order, roots[n], k);
      }
    }
  }

  /** A computed column keeps its value, since no other suboperator writes to it. */
  lemma {:induction false} ValueStays(sem: Semantics, nodes: seq<Node>, built: map<nat, IU>, program: seq<Subop>, order: seq<nat>,
                                      env: IU -> Value, k: nat, i: nat, n: nat)
    requires Lowered(nodes, built, program, order, {}) && i <= n <= |program| && k < |nodes|
    requires forall j :: i <= j < n ==> order[j] != k
    ensures Run(sem, program, n, env)(Out(nodes[k])) == Run(sem, program, i, env)(Out(nodes[k]))
  {
    if i < n {
      ValueStays(sem, nodes, built, program, order, env, k, i, n - 1);
      assert Emitted(nodes, built, program, order, {}, n - 1);
    }
  }

  lemma ResultWritten(sem: Semantics, nodes: seq<Node>, program: seq<Subop>, env: IU -> Value, i: nat, k: nat)
    requires WellFormed(nodes) && k < |nodes| && nodes[k].Compute? && i < |program| && program[i] == SubopOf(nodes, k)
    requires var children := nodes[k].children;
      Sources(Outs(nodes, children, |children|), Run(sem, program, i, env)) == EvalChildren(sem, nodes, env, k, |children|)
    ensures Run(sem, program, i + 1, env)(Out(nodes[k])) == Eval(sem, nodes, env, k)
  {
  }

  /** The columns of available nodes hold their recursive values. */
  lemma {:induction false} ProgramComputes(sem: Semantics, nodes: seq<Node>, built: map<nat, IU>, program: seq<Subop>,
                                           order: seq<nat>, env: IU -> Value, n: nat, k: nat)
    requires Lowered(nodes, built, program, order, {}) && n <= |program|
    requires Available(nodes, built, order, n, k)
    ensures Run(sem, program, n, env)(Out(nodes[k])) == Eval(sem, nodes, env, k)
    decreases k, n
  {
    if nodes[k].Ref? {
      forall j | 0 <= j < n ensures order[j] != k {
        assert Emitted(nodes, built, program, order, {}, j);
      }
      ValueStays(sem, nodes, built, program, order, env, k, 0, n);
    } else {
      var i :| 0 <= i < |order[..n]| && order[..n][i] == k;
      assert order[i] == k;
      assert Emitted(nodes, built, program, order, {}, i);
      OperandsComputed(sem, nodes, built, program, order, env, i, |nodes[k].children|);
      ResultWritten(sem, nodes, program, env, i, k);
      ValueStays(sem, nodes, built, program, order, env, k, i + 1, n);
    }
  }

  lemma {:induction false} OperandsComputed(sem: Semantics, nodes: seq<Node>, built: map<nat, IU>, program: seq<Subop>,
                                            order: seq<nat>, env: IU -> Value, i: nat, n: nat)
    requires Lowered(nodes, built, program, order, {}) && i < |program|
    requires order[i] < |nodes| && nodes[order[i]].Compute? && n <= |nodes[order[i]].children|
    ensures var children := nodes[order[i]].children;
      Sources(Outs(nodes, children, n), Run(sem, program, i, env)) == EvalChildren(sem, nodes, env, order[i], n)
    decreases order[i], 0, n
  {
    if n != 0 {
      var children := nodes[order[i]].children;
      assert Emitted(nodes, built, program, order, {}, i);
      OperandsComputed(sem, nodes, built, program, order, env, i, n - 1);
      assert Available(nodes, built, order, i, children[n - 1]);
      ProgramComputes(sem, nodes, built, program, order, env, i, children[n - 1]);
    }
  }

  /**
   * Main theorem: the program emits every computation of the outputs exactly once, behind its operands, and leaves the
   * recursive value of every output in the column of the output.
   */
  lemma LoweringPreservesMeaning(sem: Semantics, nodes: seq<Node>, built: map<nat, IU>, program: seq<Subop>, order: seq<nat>,
                                 roots: seq<nat>, env: IU -> Value, r: nat)
    requires Lowered(nodes, built, program, order, {})
    requires forall r :: 0 <= r < |roots| ==> roots[r] in built
    requires r < |roots|
    ensures Run(sem, program, |program|, env)(Out(nodes[roots[r]])) == Eval(sem, nodes, env, roots[r])
    ensures forall k :: k in Reach(nodes, roots[r]) && nodes[k].Compute? ==> EmittedOnce(nodes, program, k)
  {
    var k := roots[r];
    assert order[..|program|] == order;
    ProgramComputes(sem, nodes, built, program, order, env, |program|, k);
    forall k | k in Reach(nodes, roots[r]) && nodes[k].Compute? ensures EmittedOnce(nodes, program, k)
    {
      ReachIsBuilt(nodes, built, program, order, roots[r], k);
      var i :| 0 <= i < |order| && order[i] == k;
      assert Emitted(nodes, built, program, order, {}, i);
      forall j | 0 <= j < |program| && program[j].out == nodes[k].out ensures j == i {
        assert Emitted(nodes, built, program, order, {}, j);
      }
    }
  }

  /** One suboperator of the program computes the node, and no other one writes to its column. */
  ghost predicate EmittedOnce(nodes: seq<Node>, program: seq<Subop>, k: nat)
    requires WellFormed(nodes) && k < |nodes| && nodes[k].Compute?
  {
    exists i :: 0 <= i < |program| && program[i] == SubopOf(nodes, k) && OnlyWriter(program, i)
  }

  ghost predicate OnlyWriter(program: seq<Subop>, i: nat)
    requires i < |program|
  {
    forall j :: 0 <= j < |program| && program[j].out == program[i].out ==> j == i
  }

  lemma ReachIsBuilt(nodes: seq<Node>, built: map<nat, IU>, program: seq<Subop>, order: seq<nat>, root: nat, k: nat)
    requires Lowered(nodes, built, program, order, {}) && root in built && k in Reach(nodes, root)
    ensures k in built
  {
    forall j, i | j in built.Keys && j < |nodes| && nodes[j].Compute? && 0 <= i < |nodes[j].children|
      ensures nodes[j].children[i] in built.Keys
    {
      var e :| 0 <= e < |order| && order[e] == j;
      assert Emitted(nodes, built, program, order, {}, e);
      assert Available(nodes, built, order, e, nodes[j].children[i]);
    }
    ClosedContainsReach(nodes, built.Keys, root);
  }

  lemma {:induction false} SourceIsChild(nodes: seq<Node>, children: seq<nat>, n: nat, iu: IU) returns (c: nat)
    requires n <= |children| && forall i :: 0 <= i < n ==> children[i] < |nodes|
    requires iu in Outs(nodes, children, n)
    ensures c < n && iu == Out(nodes[children[c]])
  {
    if iu == Out(nodes[children[n - 1]]) {
      c := n - 1;
    } else {
      c := SourceIsChild(nodes, children, n - 1, iu);
    }
  }

  /** What a suboperator reads is not written behind it. */
  lemma OperandsFirst(nodes: seq<Node>, built: map<nat, IU>, program: seq<Subop>, order: seq<nat>, i: nat, j: nat)
    requires Lowered(nodes, built, program, order, {}) && i < |program| && j < |program|
    requires program[j].out in program[i].sources
    ensures j < i
  {
    assert Emitted(nodes, built, program, order, {}, i) && Emitted(nodes, built, program, order, {}, j);
    var children := nodes[order[i]].children;
    var c := SourceIsChild(nodes, children, |children|, program[j].out);
    assert Available(nodes, built, order, i, children[c]);
    assert order[j] == children[c];
    var e :| 0 <= e < |order[..i]| && order[..i][e] == children[c];
    assert order[e] == order[j];
  }
}
