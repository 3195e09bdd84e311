/**
 * Cuts through strong links. A piece that begins with the consumer of a strong link runs the producer again, and one that
 * ends with a producer runs a consumer early. When such pieces can be built, when the store has what they read, and what a
 * consumer that runs twice must leave alone.
 */
module RepipeCuts {
  import opened Repipe

  // ---------------------------------------------------------------------------------------------
  // One piece
  // ---------------------------------------------------------------------------------------------

  /** Columns without a value and without a strong producer only order suboperators. All others have to come from somewhere. */
  ghost predicate Carries(g: Graph, v: IU)
    requires WellFormed(g) && v in g.owner
  {
    !v.isVoid || g.ops[g.owner[v]].strongOut
  }

  /** Who provides `v` to the suboperator at position `q` of a piece: its inputs, or a suboperator in front. */
  ghost predicate ProvidedBy(piece: Piece, q: nat, r: int, v: IU)
    requires q < |piece.ops|
  {
    if r == -1 then v in piece.inputs else 0 <= r < q && v in piece.ops[r].outs
  }

  ghost predicate OneProvider(piece: Piece, q: nat, v: IU)
    requires q < |piece.ops|
  {
    exists r :: ProvidedBy(piece, q, r, v) && forall s :: ProvidedBy(piece, q, s, v) ==> s == r
  }

  ghost predicate SourceOf(g: Graph, op: Op, v: IU)
    requires WellFormed(g)
  {
    v in op.sources && v in g.owner && Carries(g, v)
  }

  /** Everything that any suboperator of the piece reads, attached ones included, has exactly one provider in the piece. */
  ghost predicate PieceClosed(g: Graph, piece: Piece)
    requires WellFormed(g)
  {
    forall q, v :: 0 <= q < |piece.ops| && SourceOf(g, piece.ops[q], v) ==> OneProvider(piece, q, v)
  }

  /** Void handles come from a producer in the range, or from the one that is attached. */
  ghost predicate HandlesReach(g: Graph, start: nat, end: nat)
    requires start < end <= |g.ops|
  {
    forall k, v :: start <= k < end && IsHandle(g, k, v) && v.isVoid ==>
      IsHandle(g, start, v) || (v in g.owner && start <= g.owner[v])
  }

  /** What an attached consumer reads is computed in the range, or the piece reads it anyway. */
  ghost predicate ConsumerFed(g: Graph, start: nat, end: nat, consumer: nat)
    requires WellFormed(g) && start < end <= |g.ops| && consumer < |g.ops|
  {
    forall v :: v in g.ops[consumer].sources && !v.isVoid ==>
      v in g.owner && (start <= g.owner[v] < end || Misses(g, start, end, v))
  }

  ghost predicate CanBeCut(g: Graph, start: nat, end: nat, consumer: nat)
    requires WellFormed(g) && start < end <= |g.ops|
  {
    && HandlesReach(g, start, end)
    && (g.ops[end - 1].strongOut ==> consumer < |g.ops| && ConsumerFed(g, start, end, consumer))
  }

  /** What a piece for [start, end) reads and runs, with `consumer` attached if a consumer has to be. */
  ghost predicate HasShape(g: Graph, start: nat, end: nat, consumer: nat, piece: Piece)
    requires WellFormed(g) && start < end <= |g.ops|
  {
    && (forall v :: v in piece.inputs <==> !v.isVoid && Misses(g, start, end, v))
    && AreOpsWith(g, start, end, piece.ops, consumer)
  }

  ghost predicate IsCutPiece(g: Graph, start: nat, end: nat, consumer: nat, piece: Piece)
    requires WellFormed(g) && start < end <= |g.ops|
  {
    IsPiece(g, start, end, piece.sinks, piece) && AreOpsWith(g, start, end, piece.ops, consumer)
  }

  /** The three places a column can come from exclude each other. */
  ghost predicate Comes(g: Graph, start: nat, end: nat, q: nat, v: IU)
    requires WellFormed(g) && start < end <= |g.ops|
  {
    || (!v.isVoid && Misses(g, start, end, v))
    || (|Attached(g, start)| == 1 && q > 0 && IsHandle(g, start, v))
    || (v in g.owner && start <= g.owner[v] < start + q - |Attached(g, start)|)
  }

  lemma ProviderIs(g: Graph, start: nat, end: nat, consumer: nat, piece: Piece, q: nat, r: nat, v: IU)
    requires WellFormed(g) && start < end <= |g.ops| && HasShape(g, start, end, consumer, piece)
    requires r < q < |piece.ops| && q <= |Attached(g, start)| + (end - start)
    ensures ProvidedBy(piece, q, r, v)
       <==> if r < |Attached(g, start)| then IsHandle(g, start, v)
            else v in g.owner && g.owner[v] == start + r - |Attached(g, start)|
  {
    var offset := |Attached(g, start)|;
    if r < offset {
      StartOfPiece(g, start);
      assert piece.ops[0] == g.ops[Partner(g, start)];
    } else {
      assert piece.ops[r] == g.ops[start + r - offset];
    }
  }

  lemma MissesFromBefore(g: Graph, start: nat, end: nat, v: IU)
    requires WellFormed(g) && start < end <= |g.ops| && Misses(g, start, end, v)
    ensures v in g.owner && g.owner[v] < start && !IsHandle(g, start, v)
  {
    if g.ops[start].strongIn && v in g.ops[Partner(g, start)].sources {
      StartOfPiece(g, start);
      assert g.ops[start].sources[0] in g.ops[Partner(g, start)].outs;
    }
  }

  lemma HandleFromBefore(g: Graph, k: nat, v: IU)
    requires WellFormed(g) && k < |g.ops| && IsHandle(g, k, v)
    ensures v in g.owner && g.owner[v] == Partner(g, k) < k && g.ops[Partner(g, k)].strongOut && v in g.ops[k].sources
  {
    assert LinkedProperly(g, k);
    assert g.ops[k].sources[0] in g.ops[k].sources;
  }

  lemma OneProviderIff(g: Graph, start: nat, end: nat, consumer: nat, piece: Piece, q: nat, v: IU)
    requires WellFormed(g) && start < end <= |g.ops| && HasShape(g, start, end, consumer, piece)
    requires q < |piece.ops| && q <= |Attached(g, start)| + (end - start)
    ensures OneProvider(piece, q, v) == Comes(g, start, end, q, v)
  {
    var offset := |Attached(g, start)|;
    if Misses(g, start, end, v) {
      MissesFromBefore(g, start, end, v);
    }
    if IsHandle(g, start, v) {
      HandleFromBefore(g, start, v);
    }
    forall r: nat | r < q
      ensures ProvidedBy(piece, q, r, v)
         <==> if r < offset then IsHandle(g, start, v) else v in g.owner && g.owner[v] == start + r - offset
    {
      ProviderIs(g, start, end, consumer, piece, q, r, v);
    }
    if !v.isVoid && Misses(g, start, end, v) {
      assert ProvidedBy(piece, q, -1, v);
    } else if offset == 1 && q > 0 && IsHandle(g, start, v) {
      assert ProvidedBy(piece, q, 0, v);
    } else if v in g.owner && start <= g.owner[v] < start + q - offset {
      assert ProvidedBy(piece, q, g.owner[v] - start + offset, v);
    }
  }

  /** Only a handle has a strong producer. */
  lemma StrongSourceIsHandle(g: Graph, k: nat, v: IU)
    requires WellFormed(g) && k < |g.ops| && v in g.ops[k].sources && g.ops[g.owner[v]].strongOut
    ensures IsHandle(g, k, v)
  {
    var i :| 0 <= i < |g.ops[k].sources| && g.ops[k].sources[i] == v;
    assert LinkedProperly(g, k);
  }

  lemma ProducerFed(g: Graph, start: nat, end: nat, consumer: nat, piece: Piece, v: IU)
    requires WellFormed(g) && start < end <= |g.ops| && HasShape(g, start, end, consumer, piece)
    requires g.ops[start].strongIn && SourceOf(g, piece.ops[0], v)
    ensures OneProvider(piece, 0, v)
  {
    var p := Partner(g, start);
    assert LinkedProperly(g, start) && LinkedProperly(g, p);
    assert piece.ops[0] == g.ops[p];
    if g.ops[g.owner[v]].strongOut {
      StrongSourceIsHandle(g, p, v);
    }
    OneProviderIff(g, start, end, consumer, piece, 0, v);
  }

  lemma RangeFedIff(g: Graph, start: nat, end: nat, consumer: nat, piece: Piece, k: nat, v: IU)
    requires WellFormed(g) && start <= k < end <= |g.ops| && HasShape(g, start, end, consumer, piece)
    requires SourceOf(g, g.ops[k], v)
    ensures |Attached(g, start)| + (k - start) < |piece.ops|
    ensures OneProvider(piece, |Attached(g, start)| + (k - start), v)
         == (start <= g.owner[v] || !v.isVoid || IsHandle(g, start, v))
  {
    OneProviderIff(g, start, end, consumer, piece, |Attached(g, start)| + (k - start), v);
    if g.owner[v] < start && !v.isVoid {
      assert Outside(g, start, end, v);
    }
  }

  lemma ConsumerFedIff(g: Graph, start: nat, end: nat, consumer: nat, piece: Piece, v: IU)
    requires WellFormed(g) && start < end <= |g.ops| && HasShape(g, start, end, consumer, piece)
    requires g.ops[end - 1].strongOut && SourceOf(g, g.ops[consumer], v)
    ensures |piece.ops| == |Attached(g, start)| + (end - start) + 1
    ensures OneProvider(piece, |piece.ops| - 1, v)
         == (start <= g.owner[v] < end || (!v.isVoid && Misses(g, start, end, v)))
  {
    OneProviderIff(g, start, end, consumer, piece, |piece.ops| - 1, v);
    if IsHandle(g, start, v) {
      ConsumerIsLinked(g, consumer, end - 1);
      HandleFromBefore(g, start, v);
      StrongSourceIsHandle(g, consumer, v);
      HandleFromBefore(g, consumer, v);
    }
  }

  /**
   * Main theorem: the piece for [start, end) is closed exactly if void handles reach their consumers, and an attached
   * consumer reads nothing but what the range computes or the piece reads anyway.
   */
  lemma PieceClosedIff(g: Graph, start: nat, end: nat, consumer: nat, piece: Piece)
    requires WellFormed(g) && start < end <= |g.ops| && IsCutPiece(g, start, end, consumer, piece)
    ensures PieceClosed(g, piece) == CanBeCut(g, start, end, consumer)
  {
    if PieceClosed(g, piece) {
      ClosedCanBeCut(g, start, end, consumer, piece);
    }
    if CanBeCut(g, start, end, consumer) {
      CutIsClosed(g, start, end, consumer, piece);
    }
  }

  lemma ClosedCanBeCut(g: Graph, start: nat, end: nat, consumer: nat, piece: Piece)
    requires WellFormed(g) && start < end <= |g.ops| && HasShape(g, start, end, consumer, piece)
    requires PieceClosed(g, piece)
    ensures CanBeCut(g, start, end, consumer)
  {
    var offset := |Attached(g, start)|;
    forall k, v | start <= k < end && IsHandle(g, k, v) && v.isVoid
      ensures IsHandle(g, start, v) || (v in g.owner && start <= g.owner[v])
    {
      HandleFromBefore(g, k, v);
      assert piece.ops[offset + (k - start)] == g.ops[k];
      assert SourceOf(g, g.ops[k], v);
      RangeFedIff(g, start, end, consumer, piece, k, v);
    }
    if g.ops[end - 1].strongOut {
      forall v | v in g.ops[consumer].sources && !v.isVoid
        ensures v in g.owner && (start <= g.owner[v] < end || Misses(g, start, end, v))
      {
        assert piece.ops[|piece.ops| - 1] == g.ops[consumer];
        assert SourceOf(g, g.ops[consumer], v);
        ConsumerFedIff(g, start, end, consumer, piece, v);
      }
    }
  }

  lemma RangeIsFed(g: Graph, start: nat, end: nat, consumer: nat, piece: Piece, k: nat, v: IU)
    requires WellFormed(g) && start <= k < end <= |g.ops| && HasShape(g, start, end, consumer, piece)
    requires HandlesReach(g, start, end) && SourceOf(g, g.ops[k], v)
    ensures OneProvider(piece, |Attached(g, start)| + (k - start), v)
  {
    RangeFedIff(g, start, end, consumer, piece, k, v);
    if v.isVoid && g.owner[v] < start {
      StrongSourceIsHandle(g, k, v);
    }
  }

  lemma ConsumerIsFed(g: Graph, start: nat, end: nat, consumer: nat, piece: Piece, v: IU)
    requires WellFormed(g) && start < end <= |g.ops| && HasShape(g, start, end, consumer, piece)
    requires g.ops[end - 1].strongOut && ConsumerFed(g, start, end, consumer) && SourceOf(g, g.ops[consumer], v)
    ensures OneProvider(piece, |piece.ops| - 1, v)
  {
    ConsumerFedIff(g, start, end, consumer, piece, v);
    if v.isVoid {
      StrongSourceIsHandle(g, consumer, v);
      HandleFromBefore(g, consumer, v);
      ConsumerIsLinked(g, consumer, end - 1);
    }
  }

  lemma OpAt(g: Graph, start: nat, end: nat, consumer: nat, ops: seq<Op>, q: nat)
    requires SingleAssignment(g) && start < end <= |g.ops| && AreOpsWith(g, start, end, ops, consumer) && q < |ops|
    ensures var offset := |Attached(g, start)|;
      if q < offset then g.ops[start].strongIn && q == 0
      else if q < offset + (end - start) then ops[q] == g.ops[start + (q - offset)]
      else g.ops[end - 1].strongOut && ops[q] == g.ops[consumer] && q == |ops| - 1
  {
    var offset := |Attached(g, start)|;
    if offset <= q < offset + (end - start) {
      assert g.ops[start..end][q - offset] == g.ops[start + (q - offset)];
    }
  }

  lemma SourceIsFed(g: Graph, start: nat, end: nat, consumer: nat, piece: Piece, q: nat, v: IU)
    requires WellFormed(g) && start < end <= |g.ops| && HasShape(g, start, end, consumer, piece)
    requires CanBeCut(g, start, end, consumer) && q < |piece.ops| && SourceOf(g, piece.ops[q], v)
    ensures OneProvider(piece, q, v)
  {
    var offset := |Attached(g, start)|;
    OpAt(g, start, end, consumer, piece.ops, q);
    if q < offset {
      ProducerFed(g, start, end, consumer, piece, v);
    } else if q < offset + (end - start) {
      RangeIsFed(g, start, end, consumer, piece, start + (q - offset), v);
    } else {
      ConsumerIsFed(g, start, end, consumer, piece, v);
    }
  }

  lemma CutIsClosed(g: Graph, start: nat, end: nat, consumer: nat, piece: Piece)
    requires WellFormed(g) && start < end <= |g.ops| && HasShape(g, start, end, consumer, piece)
    requires CanBeCut(g, start, end, consumer)
    ensures PieceClosed(g, piece)
  {
    forall q, v | 0 <= q < |piece.ops| && SourceOf(g, piece.ops[q], v) ensures OneProvider(piece, q, v) {
      SourceIsFed(g, start, end, consumer, piece, q, v);
    }
  }

  // ---------------------------------------------------------------------------------------------
  // Any number of pieces
  // ---------------------------------------------------------------------------------------------

  /** The boundaries of the pieces: piece `i` is [cuts[i], cuts[i + 1]). */
  ghost predicate IsPartition(g: Graph, cuts: seq<nat>) {
    && |cuts| > 0 && cuts[0] == 0 && cuts[|cuts| - 1] == |g.ops|
    && forall i, j :: 0 <= i < j < |cuts| ==> cuts[i] < cuts[j] <= |g.ops|
  }

  /** The compiled piece between two neighbouring cuts. */
  ghost predicate IsCompiled(g: Graph, start: nat, end: nat, consumer: nat, piece: Piece)
    requires WellFormed(g) && start < end <= |g.ops|
  {
    RequiredSinks(g, start, end, piece.sinks) && IsCutPiece(g, start, end, consumer, piece)
  }

  ghost predicate AreCompiled(g: Graph, cuts: seq<nat>, consumers: seq<nat>, pieces: seq<Piece>)
    requires WellFormed(g) && IsPartition(g, cuts)
  {
    && |pieces| == |cuts| - 1 && |consumers| == |pieces|
    && forall i :: 0 <= i < |pieces| ==> IsCompiled(g, cuts[i], cuts[i + 1], consumers[i], pieces[i])
  }

  ghost predicate Owns(g: Graph, cuts: seq<nat>, j: nat, v: IU)
    requires j + 1 < |cuts|
  {
    v in g.owner && cuts[j] <= g.owner[v] < cuts[j + 1]
  }

  /** Each input of each piece is stored by the earlier piece that owns it. */
  ghost predicate InputsStored(g: Graph, cuts: seq<nat>, pieces: seq<Piece>)
    requires |cuts| == |pieces| + 1
  {
    forall i, v :: 0 <= i < |pieces| && v in pieces[i].inputs ==>
      exists j :: 0 <= j < i && Owns(g, cuts, j, v) && v in pieces[j].sinks
  }

  ghost predicate UsedFrom(g: Graph, n: nat, v: IU) {
    exists k :: n <= k < |g.ops| && v in g.ops[k].sources
  }

  /**
   * The inputs of a producer that has to run again are used behind the piece that computes them; that is the case at once
   * if the producer itself lies behind that piece.
   */
  ghost predicate ProducersFed(g: Graph, cuts: seq<nat>)
    requires WellFormed(g) && IsPartition(g, cuts)
  {
    forall i, j, v {:trigger Owns(g, cuts, j, v), cuts[i]} ::
      0 <= j < i < |cuts| - 1 && RunsAgainWith(g, cuts[i], v) && Owns(g, cuts, j, v) ==> UsedFrom(g, cuts[j + 1], v)
  }

  /** `v` is read by the producer that is attached in front of `start`. */
  ghost predicate RunsAgainWith(g: Graph, start: nat, v: IU)
    requires WellFormed(g)
  {
    start < |g.ops| && g.ops[start].strongIn && v in g.ops[Partner(g, start)].sources && !v.isVoid
  }

  lemma {:induction false} FindOwner(g: Graph, cuts: seq<nat>, i: nat, v: IU) returns (j: nat)
    requires IsPartition(g, cuts) && i < |cuts| && v in g.owner && g.owner[v] < cuts[i]
    ensures j < i && Owns(g, cuts, j, v)
  {
    if cuts[i - 1] <= g.owner[v] {
      j := i - 1;
    } else {
      j := FindOwner(g, cuts, i - 1, v);
    }
  }

  lemma OneOwner(g: Graph, cuts: seq<nat>, j: nat, k: nat, v: IU)
    requires IsPartition(g, cuts) && j + 1 < |cuts| && k + 1 < |cuts| && Owns(g, cuts, j, v) && Owns(g, cuts, k, v)
    ensures j == k
  {
  }

  /** Main theorem: the store has what every piece reads exactly if the producers that run again are fed. */
  lemma InputsStoredIff(g: Graph, cuts: seq<nat>, consumers: seq<nat>, pieces: seq<Piece>)
    requires WellFormed(g) && IsPartition(g, cuts) && AreCompiled(g, cuts, consumers, pieces)
    ensures InputsStored(g, cuts, pieces) == ProducersFed(g, cuts)
  {
    if InputsStored(g, cuts, pieces) {
      forall i, j, v | 0 <= j < i < |cuts| - 1 && RunsAgainWith(g, cuts[i], v) && Owns(g, cuts, j, v)
        ensures UsedFrom(g, cuts[j + 1], v)
      {
        assert IsCompiled(g, cuts[i], cuts[i + 1], consumers[i], pieces[i]);
        assert Misses(g, cuts[i], cuts[i + 1], v);
        assert v in pieces[i].inputs;
        var k :| 0 <= k < i && Owns(g, cuts, k, v) && v in pieces[k].sinks;
        OneOwner(g, cuts, j, k, v);
        assert IsCompiled(g, cuts[k], cuts[k + 1], consumers[k], pieces[k]);
      }
    }
    if ProducersFed(g, cuts) {
      forall i, v | 0 <= i < |pieces| && v in pieces[i].inputs
        ensures exists j :: 0 <= j < i && Owns(g, cuts, j, v) && v in pieces[j].sinks
      {
        var j := InputIsStored(g, cuts, consumers, pieces, i, v);
      }
    }
  }

  lemma InputIsStored(g: Graph, cuts: seq<nat>, consumers: seq<nat>, pieces: seq<Piece>, i: nat, v: IU) returns (j: nat)
    requires WellFormed(g) && IsPartition(g, cuts) && AreCompiled(g, cuts, consumers, pieces) && ProducersFed(g, cuts)
    requires i < |pieces| && v in pieces[i].inputs
    ensures j < i && Owns(g, cuts, j, v) && v in pieces[j].sinks
  {
    assert IsCompiled(g, cuts[i], cuts[i + 1], consumers[i], pieces[i]);
    j := InputIsUsed(g, cuts, i, consumers[i], pieces[i], v);
    assert IsCompiled(g, cuts[j], cuts[j + 1], consumers[j], pieces[j]);
    StoredIfUsed(g, cuts[j], cuts[j + 1], consumers[j], pieces[j], v);
  }

  lemma InputIsUsed(g: Graph, cuts: seq<nat>, i: nat, consumer: nat, piece: Piece, v: IU) returns (j: nat)
    requires WellFormed(g) && IsPartition(g, cuts) && ProducersFed(g, cuts) && i + 1 < |cuts|
    requires IsCompiled(g, cuts[i], cuts[i + 1], consumer, piece) && v in piece.inputs
    ensures j < i && Owns(g, cuts, j, v) && !v.isVoid && UsedFrom(g, cuts[j + 1], v)
  {
    InputComesBefore(g, cuts[i], cuts[i + 1], consumer, piece, v);
    j := FindOwner(g, cuts, i, v);
    assert 0 <= j < i && cuts[j + 1] <= cuts[i];
    assert RunsAgainWith(g, cuts[i], v) ==> UsedFrom(g, cuts[j + 1], v);
    InputUsedFrom(g, cuts[i], cuts[i + 1], consumer, piece, cuts[j + 1], v);
  }

  lemma StoredIfUsed(g: Graph, start: nat, end: nat, consumer: nat, piece: Piece, v: IU)
    requires WellFormed(g) && start < end <= |g.ops| && IsCompiled(g, start, end, consumer, piece)
    requires !v.isVoid && v in g.owner && start <= g.owner[v] < end && UsedFrom(g, end, v)
    ensures v in piece.sinks
  {
  }

  lemma InputComesBefore(g: Graph, start: nat, end: nat, consumer: nat, piece: Piece, v: IU)
    requires WellFormed(g) && start < end <= |g.ops| && IsCompiled(g, start, end, consumer, piece) && v in piece.inputs
    ensures v in g.owner && g.owner[v] < start && !v.isVoid
  {
    MissesFromBefore(g, start, end, v);
  }

  lemma InputUsedFrom(g: Graph, start: nat, end: nat, consumer: nat, piece: Piece, n: nat, v: IU)
    requires WellFormed(g) && start < end <= |g.ops| && IsCompiled(g, start, end, consumer, piece) && v in piece.inputs
    requires n <= start && (RunsAgainWith(g, start, v) ==> UsedFrom(g, n, v))
    ensures UsedFrom(g, n, v)
  {
    if !RunsAgainWith(g, start, v) {
      assert Outside(g, start, end, v);
    }
  }

  // ---------------------------------------------------------------------------------------------
  // What cut pieces compute
  // ---------------------------------------------------------------------------------------------

  /** What suboperator `k` reads in the whole pipeline. */
  function MeaningOfSources(m: Machine, g: Graph, tr: Trace, k: nat): seq<Column>
    requires k < |g.ops|
  {
    Inputs(m, tr.values, g.ops[k].sources)
  }

  /** The store in front of a piece: right values only, and all that the piece reads. */
  ghost predicate Serves(m: Machine, g: Graph, tr: Trace, start: nat, piece: Piece, s: State)
    requires SingleAssignment(g) && start <= |g.ops|
  {
    s.world == tr.worlds(start) && Agrees(m, g, tr, s.columns) && forall v :: v in piece.inputs ==> v in s.columns
  }

  /** The world does not depend on how often a strong producer runs. In front of the range it makes the handle. */
  lemma StartSupplied(m: Machine, g: Graph, tr: Trace, start: nat, end: nat, consumer: nat, piece: Piece, s: State)
    returns (at: State)
    requires WellFormed(g) && Faithful(m) && Follows(m, g, tr) && start < end <= |g.ops| && HasShape(g, start, end, consumer, piece)
    requires HandlesReach(g, start, end) && Serves(m, g, tr, start, piece, s)
    ensures |Attached(g, start)| <= |piece.ops|
    ensures at == ExecAll(m, piece.ops, |Attached(g, start)|, State(Copied(piece, s.columns), s.world))
    ensures Ran(m, g, tr, start, start, at) && Supplied(m, g, tr, start, end, at.columns)
    ensures forall v :: v in piece.inputs ==> v in at.columns
  {
    var begin := State(Copied(piece, s.columns), s.world);
    at := ExecAll(m, piece.ops, |Attached(g, start)|, begin);
    if g.ops[start].strongIn {
      ProducerRuns(m, g, tr, start, end, consumer, piece, s);
      OneMore(m, piece.ops, 0, begin);
    }
    forall j, v | start <= j < end && v in g.ops[j].sources && g.owner[v] < start
      ensures Value(m, at.columns, v) == Meaning(m, tr, v)
    {
      OutsideValue(m, g, tr, start, end, consumer, piece, j, v, at);
    }
  }

  lemma ProducerRuns(m: Machine, g: Graph, tr: Trace, start: nat, end: nat, consumer: nat, piece: Piece, s: State)
    requires WellFormed(g) && Faithful(m) && Follows(m, g, tr) && start < end <= |g.ops| && HasShape(g, start, end, consumer, piece)
    requires g.ops[start].strongIn && Serves(m, g, tr, start, piece, s)
    ensures |piece.ops| > 0 && piece.ops[0] == g.ops[Partner(g, start)]
    ensures var at := Exec(m, piece.ops[0], State(Copied(piece, s.columns), s.world));
      && Agrees(m, g, tr, at.columns) && at.world == s.world
      && (forall v :: v in piece.inputs || IsHandle(g, start, v) ==> v in at.columns)
  {
    var p := Partner(g, start);
    var begin := State(Copied(piece, s.columns), s.world);
    assert LinkedProperly(g, start) && LinkedProperly(g, p);
    forall v | v in g.ops[p].sources ensures Value(m, begin.columns, v) == Meaning(m, tr, v) {
      if v.isVoid {
        assert !g.ops[g.owner[v]].strongOut by {
          if g.ops[g.owner[v]].strongOut {
            StrongSourceIsHandle(g, p, v);
          }
        }
        VoidMeansNothing(m, g, tr, v);
      } else {
        assert Misses(g, start, end, v);
      }
    }
    ExecMeans(m, g, tr, p, begin);
    StartOfPiece(g, start);
  }

  lemma OutsideValue(m: Machine, g: Graph, tr: Trace, start: nat, end: nat, consumer: nat, piece: Piece, j: nat, v: IU, at: State)
    requires WellFormed(g) && Faithful(m) && Follows(m, g, tr) && start <= j < end <= |g.ops| && HasShape(g, start, end, consumer, piece)
    requires HandlesReach(g, start, end) && v in g.ops[j].sources && g.owner[v] < start
    requires Agrees(m, g, tr, at.columns)
    requires forall v :: v in piece.inputs || IsHandle(g, start, v) ==> v in at.columns
    ensures Value(m, at.columns, v) == Meaning(m, tr, v)
  {
    if !v.isVoid {
      if !IsHandle(g, start, v) {
        assert Outside(g, start, end, v);
        assert Misses(g, start, end, v);
      }
    } else if g.ops[g.owner[v]].strongOut {
      StrongSourceIsHandle(g, j, v);
    } else {
      VoidMeansNothing(m, g, tr, v);
    }
  }

  /** Behind what is attached in front, a piece runs the range, and an attached consumer at last. */
  lemma OpsHaveRange(g: Graph, start: nat, end: nat, consumer: nat, ops: seq<Op>, n: nat)
    requires SingleAssignment(g) && start < end <= |g.ops| && AreOpsWith(g, start, end, ops, consumer)
    requires n == |Attached(g, start)| + (end - start)
    ensures n <= |ops| && ops[n - (end - start)..n] == g.ops[start..end]
    ensures if g.ops[end - 1].strongOut then |ops| == n + 1 && consumer < |g.ops| && ops[n] == g.ops[consumer] else |ops| == n
  {
  }

  lemma LastRuns(m: Machine, piece: Piece, n: nat, op: Op, s: State)
    requires |piece.ops| == n + 1 && piece.ops[n] == op
    ensures RunOps(m, piece, s) == Exec(m, op, ExecAll(m, piece.ops, n, State(Copied(piece, s.columns), s.world)))
  {
    OneMore(m, piece.ops, n, State(Copied(piece, s.columns), s.world));
    AllRun(m, piece, n + 1, s);
  }

  /** An attached consumer reads what it reads in the whole pipeline. */
  lemma ConsumerReads(m: Machine, g: Graph, tr: Trace, start: nat, end: nat, consumer: nat, piece: Piece, at: State)
    requires WellFormed(g) && Faithful(m) && Follows(m, g, tr) && start < end <= |g.ops| && HasShape(g, start, end, consumer, piece)
    requires g.ops[end - 1].strongOut && ConsumerFed(g, start, end, consumer)
    requires Ran(m, g, tr, start, end, at) && forall v :: v in piece.inputs ==> v in at.columns
    ensures consumer < |g.ops| && Inputs(m, at.columns, g.ops[consumer].sources) == MeaningOfSources(m, g, tr, consumer)
  {
    forall v | v in g.ops[consumer].sources ensures Value(m, at.columns, v) == Meaning(m, tr, v) {
      ConsumerReadsColumn(m, g, tr, start, end, consumer, piece, at, v);
    }
    ReadsMeaning(m, g, tr, consumer, at.columns);
  }

  lemma ConsumerReadsColumn(m: Machine, g: Graph, tr: Trace, start: nat, end: nat, consumer: nat, piece: Piece, at: State, v: IU)
    requires WellFormed(g) && Faithful(m) && Follows(m, g, tr) && start < end <= |g.ops| && HasShape(g, start, end, consumer, piece)
    requires g.ops[end - 1].strongOut && ConsumerFed(g, start, end, consumer) && v in g.ops[consumer].sources
    requires Ran(m, g, tr, start, end, at) && forall v :: v in piece.inputs ==> v in at.columns
    ensures Value(m, at.columns, v) == Meaning(m, tr, v)
  {
    if !v.isVoid {
      if g.owner[v] < start || end <= g.owner[v] {
        assert v in piece.inputs;
      }
      assert v in at.columns;
    } else if g.ops[g.owner[v]].strongOut {
      StrongSourceIsHandle(g, consumer, v);
      HandleFromBefore(g, consumer, v);
      ConsumerIsLinked(g, consumer, end - 1);
    } else {
      VoidMeansNothing(m, g, tr, v);
    }
  }

  lemma ReadsMeaning(m: Machine, g: Graph, tr: Trace, k: nat, columns: map<IU, Column>)
    requires SingleAssignment(g) && k < |g.ops| && Ready(m, g, tr, k, columns)
    ensures Inputs(m, columns, g.ops[k].sources) == MeaningOfSources(m, g, tr, k)
  {
    SameInputs(m, columns, tr.values, g.ops[k].sources);
  }

  /** What an attached consumer makes of the world behind the range. */
  function WorldBehind(m: Machine, g: Graph, tr: Trace, end: nat, consumer: nat): World
    requires SingleAssignment(g) && 0 < end <= |g.ops| && (g.ops[end - 1].strongOut ==> consumer < |g.ops|)
  {
    var world := tr.worlds(end);
    if g.ops[end - 1].strongOut then m.next(g.ops[consumer], MeaningOfSources(m, g, tr, consumer), world) else world
  }

  /** The store behind a piece that was run. */
  ghost predicate Served(m: Machine, g: Graph, tr: Trace, end: nat, consumer: nat, piece: Piece, s: State, after: State)
    requires SingleAssignment(g) && 0 < end <= |g.ops| && (g.ops[end - 1].strongOut ==> consumer < |g.ops|)
  {
    && after.world == WorldBehind(m, g, tr, end, consumer)
    && Agrees(m, g, tr, after.columns)
    && (forall v :: v in s.columns || v in piece.sinks ==> v in after.columns)
  }

  /** The end of the piece, before it stores anything. */
  ghost predicate Outcome(m: Machine, g: Graph, tr: Trace, start: nat, end: nat, consumer: nat, after: State)
    requires SingleAssignment(g) && start < end <= |g.ops| && (g.ops[end - 1].strongOut ==> consumer < |g.ops|)
  {
    && after.world == WorldBehind(m, g, tr, end, consumer)
    && forall v :: v in g.owner && start <= g.owner[v] < end ==>
         v in after.columns && after.columns[v] == Meaning(m, tr, v)
  }

  lemma ConsumerRuns(m: Machine, g: Graph, tr: Trace, start: nat, end: nat, consumer: nat, piece: Piece, at: State)
    requires WellFormed(g) && Faithful(m) && Follows(m, g, tr) && start < end <= |g.ops| && HasShape(g, start, end, consumer, piece)
    requires g.ops[end - 1].strongOut && ConsumerFed(g, start, end, consumer)
    requires Ran(m, g, tr, start, end, at) && forall v :: v in piece.inputs ==> v in at.columns
    ensures Outcome(m, g, tr, start, end, consumer, Exec(m, g.ops[consumer], at))
  {
    ConsumerReads(m, g, tr, start, end, consumer, piece, at);
    ConsumerActs(m, g, tr, start, end, consumer, at);
  }

  /** What the piece has computed in front of an attached consumer. */
  lemma RangeOutcome(m: Machine, g: Graph, tr: Trace, start: nat, end: nat, ops: seq<Op>, n: nat, begin: State, first: State)
    returns (at: State)
    requires SingleAssignment(g) && Faithful(m) && Follows(m, g, tr) && start < end <= |g.ops|
    requires end - start <= n <= |ops| && ops[n - (end - start)..n] == g.ops[start..end]
    requires first == ExecAll(m, ops, n - (end - start), begin)
    requires Ran(m, g, tr, start, start, first) && Supplied(m, g, tr, start, end, first.columns)
    ensures at == ExecAll(m, ops, n, begin)
    ensures Ran(m, g, tr, start, end, at) && forall v :: v in first.columns ==> v in at.columns
  {
    PieceRunsRange(m, g, tr, start, end - start, ops, n - (end - start), begin, first);
    at := ExecAll(m, ops, n, begin);
  }

  lemma PieceOutcome(m: Machine, g: Graph, tr: Trace, start: nat, end: nat, consumer: nat, piece: Piece, s: State)
    requires WellFormed(g) && Faithful(m) && Follows(m, g, tr) && start < end <= |g.ops| && HasShape(g, start, end, consumer, piece)
    requires CanBeCut(g, start, end, consumer) && Serves(m, g, tr, start, piece, s)
    ensures Outcome(m, g, tr, start, end, consumer, RunOps(m, piece, s))
  {
    var begin, n := State(Copied(piece, s.columns), s.world), |Attached(g, start)| + (end - start);
    var first := StartSupplied(m, g, tr, start, end, consumer, piece, s);
    OpsHaveRange(g, start, end, consumer, piece.ops, n);
    var at := RangeOutcome(m, g, tr, start, end, piece.ops, n, begin, first);
    if g.ops[end - 1].strongOut {
      LastRuns(m, piece, n, g.ops[consumer], s);
      ConsumerRuns(m, g, tr, start, end, consumer, piece, at);
    } else {
      AllRun(m, piece, n, s);
      RanIsOutcome(m, g, tr, start, end, consumer, at);
    }
  }

  lemma RanIsOutcome(m: Machine, g: Graph, tr: Trace, start: nat, end: nat, consumer: nat, at: State)
    requires SingleAssignment(g) && start < end <= |g.ops| && !g.ops[end - 1].strongOut && Ran(m, g, tr, start, end, at)
    ensures Outcome(m, g, tr, start, end, consumer, at)
  {
  }

  lemma ConsumerActs(m: Machine, g: Graph, tr: Trace, start: nat, end: nat, consumer: nat, at: State)
    requires SingleAssignment(g) && start < end <= |g.ops| && g.ops[end - 1].strongOut && Consumes(g, consumer, end - 1)
    requires Ran(m, g, tr, start, end, at) && Inputs(m, at.columns, g.ops[consumer].sources) == MeaningOfSources(m, g, tr, consumer)
    ensures Outcome(m, g, tr, start, end, consumer, Exec(m, g.ops[consumer], at))
  {
    ConsumerIsBehind(g, consumer, end - 1);
    OwnColumnsStay(m, g, tr, start, end, consumer, at);
  }

  lemma ConsumerIsBehind(g: Graph, c: nat, p: nat)
    requires SingleAssignment(g) && Consumes(g, c, p)
    ensures p < c < |g.ops|
  {
  }

  /**
   * Main theorem: a compiled piece that can be cut stores the right columns, and leaves the world as its range does, except
   * that an attached consumer acts upon it, before its time and with the inputs it will have again.
   */
  lemma CutPieceRuns(m: Machine, g: Graph, tr: Trace, start: nat, end: nat, consumer: nat, piece: Piece, s: State)
    requires WellFormed(g) && Faithful(m) && Follows(m, g, tr) && start < end <= |g.ops| && IsCompiled(g, start, end, consumer, piece)
    requires CanBeCut(g, start, end, consumer) && Serves(m, g, tr, start, piece, s)
    ensures Served(m, g, tr, end, consumer, piece, s, RunPiece(m, piece, s))
  {
    PieceOutcome(m, g, tr, start, end, consumer, piece, s);
    OutcomeIsStored(m, g, tr, start, end, consumer, piece.sinks, s.columns, RunOps(m, piece, s));
  }

  lemma OutcomeIsStored(m: Machine, g: Graph, tr: Trace, start: nat, end: nat, consumer: nat, sinks: set<IU>,
                        columns: map<IU, Column>, after: State)
    requires SingleAssignment(g) && start < end <= |g.ops| && (g.ops[end - 1].strongOut ==> consumer < |g.ops|)
    requires RequiredSinks(g, start, end, sinks) && Agrees(m, g, tr, columns)
    requires Outcome(m, g, tr, start, end, consumer, after)
    ensures var stored := columns + (map v | v in sinks && v in after.columns :: after.columns[v]);
      Agrees(m, g, tr, stored) && forall v :: v in columns || v in sinks ==> v in stored
  {
  }

  lemma OwnColumnsStay(m: Machine, g: Graph, tr: Trace, start: nat, end: nat, consumer: nat, at: State)
    requires SingleAssignment(g) && start < end <= consumer < |g.ops| && Ran(m, g, tr, start, end, at)
    ensures var after := Exec(m, g.ops[consumer], at).columns;
      forall v :: v in g.owner && start <= g.owner[v] < end ==> v in after && after[v] == Meaning(m, tr, v)
  {
  }

  // ---------------------------------------------------------------------------------------------
  // Whole partitions
  // ---------------------------------------------------------------------------------------------

  ghost predicate AllCanBeCut(g: Graph, cuts: seq<nat>, consumers: seq<nat>)
    requires WellFormed(g) && IsPartition(g, cuts) && |consumers| == |cuts| - 1
  {
    forall i :: 0 <= i < |consumers| ==> CanBeCut(g, cuts[i], cuts[i + 1], consumers[i])
  }

  /** Runs the first `n` pieces over a shared store. */
  function RunCuts(m: Machine, pieces: seq<Piece>, n: nat, s: State): State
    requires n <= |pieces|
  {
    if n == 0 then s else RunPiece(m, pieces[n - 1], RunCuts(m, pieces, n - 1, s))
  }

  /** A consumer that runs early changes nothing but columns. */
  ghost predicate Quiet(m: Machine, g: Graph, tr: Trace, end: nat, consumer: nat)
    requires SingleAssignment(g) && 0 < end <= |g.ops|
  {
    (g.ops[end - 1].strongOut ==> consumer < |g.ops|) && WorldBehind(m, g, tr, end, consumer) == tr.worlds(end)
  }

  /** The store before piece `i` has right values only, and all that earlier pieces store. */
  ghost predicate Filled(m: Machine, g: Graph, tr: Trace, pieces: seq<Piece>, i: nat, s: State)
    requires SingleAssignment(g) && i <= |pieces|
  {
    Agrees(m, g, tr, s.columns) && forall j, v :: 0 <= j < i && v in pieces[j].sinks ==> v in s.columns
  }

  lemma CutStep(m: Machine, g: Graph, tr: Trace, cuts: seq<nat>, consumers: seq<nat>, pieces: seq<Piece>, i: nat,
                s: State, after: State)
    requires WellFormed(g) && Faithful(m) && Follows(m, g, tr) && IsPartition(g, cuts) && AreCompiled(g, cuts, consumers, pieces)
    requires AllCanBeCut(g, cuts, consumers) && ProducersFed(g, cuts) && i < |pieces|
    requires Filled(m, g, tr, pieces, i, s) && s.world == tr.worlds(cuts[i]) && after == RunPiece(m, pieces[i], s)
    ensures Filled(m, g, tr, pieces, i + 1, after)
    ensures Quiet(m, g, tr, cuts[i + 1], consumers[i]) == (after.world == tr.worlds(cuts[i + 1]))
  {
    assert IsCompiled(g, cuts[i], cuts[i + 1], consumers[i], pieces[i]);
    assert CanBeCut(g, cuts[i], cuts[i + 1], consumers[i]);
    forall v | v in pieces[i].inputs ensures v in s.columns {
      var j := InputIsStored(g, cuts, consumers, pieces, i, v);
    }
    CutPieceRuns(m, g, tr, cuts[i], cuts[i + 1], consumers[i], pieces[i], s);
    ServedIsFilled(m, g, tr, cuts[i + 1], consumers[i], pieces, i, s, after);
  }

  lemma ServedIsFilled(m: Machine, g: Graph, tr: Trace, end: nat, consumer: nat, pieces: seq<Piece>, i: nat, s: State, after: State)
    requires SingleAssignment(g) && 0 < end <= |g.ops| && (g.ops[end - 1].strongOut ==> consumer < |g.ops|)
    requires i < |pieces| && Filled(m, g, tr, pieces, i, s) && Served(m, g, tr, end, consumer, pieces[i], s, after)
    ensures Filled(m, g, tr, pieces, i + 1, after)
    ensures Quiet(m, g, tr, end, consumer) == (after.world == tr.worlds(end))
  {
  }

  /** What the first `n` pieces leave of an empty store and the world at the beginning. */
  function AfterCuts(m: Machine, tr: Trace, pieces: seq<Piece>, n: nat): State
    requires n <= |pieces|
  {
    RunCuts(m, pieces, n, State(map[], tr.worlds(0)))
  }

  /** The world is that of the whole pipeline behind each of the first `n` pieces. */
  ghost predicate OnTrack(m: Machine, tr: Trace, cuts: seq<nat>, pieces: seq<Piece>, n: nat)
    requires n <= |pieces| < |cuts|
  {
    forall i :: 0 <= i <= n ==> AfterCuts(m, tr, pieces, i).world == tr.worlds(cuts[i])
  }

  ghost predicate AllQuiet(m: Machine, g: Graph, tr: Trace, cuts: seq<nat>, consumers: seq<nat>, n: nat)
    requires SingleAssignment(g) && IsPartition(g, cuts) && n <= |consumers| < |cuts|
  {
    forall i :: 0 <= i < n ==> Quiet(m, g, tr, cuts[i + 1], consumers[i])
  }

  lemma AllQuietNext(m: Machine, g: Graph, tr: Trace, cuts: seq<nat>, consumers: seq<nat>, n: nat)
    requires SingleAssignment(g) && IsPartition(g, cuts) && 0 < n <= |consumers| < |cuts|
    ensures AllQuiet(m, g, tr, cuts, consumers, n)
         == (AllQuiet(m, g, tr, cuts, consumers, n - 1) && Quiet(m, g, tr, cuts[n], consumers[n - 1]))
  {
  }

  lemma OnTrackNext(m: Machine, tr: Trace, cuts: seq<nat>, pieces: seq<Piece>, n: nat)
    requires 0 < n <= |pieces| < |cuts|
    ensures OnTrack(m, tr, cuts, pieces, n)
         == (OnTrack(m, tr, cuts, pieces, n - 1) && AfterCuts(m, tr, pieces, n).world == tr.worlds(cuts[n]))
    ensures OnTrack(m, tr, cuts, pieces, n - 1) ==> AfterCuts(m, tr, pieces, n - 1).world == tr.worlds(cuts[n - 1])
  {
  }

  lemma QuietKeepsTrack(m: Machine, g: Graph, tr: Trace, cuts: seq<nat>, consumers: seq<nat>, pieces: seq<Piece>, n: nat)
    requires SingleAssignment(g) && IsPartition(g, cuts) && 0 < n <= |pieces| && |consumers| == |pieces| == |cuts| - 1
    requires OnTrack(m, tr, cuts, pieces, n - 1) == AllQuiet(m, g, tr, cuts, consumers, n - 1)
    requires AllQuiet(m, g, tr, cuts, consumers, n - 1) ==>
      Quiet(m, g, tr, cuts[n], consumers[n - 1]) == (AfterCuts(m, tr, pieces, n).world == tr.worlds(cuts[n]))
    ensures OnTrack(m, tr, cuts, pieces, n) == AllQuiet(m, g, tr, cuts, consumers, n)
  {
    OnTrackNext(m, tr, cuts, pieces, n);
    AllQuietNext(m, g, tr, cuts, consumers, n);
  }

  /** From a full store and the right world, piece `i` fills the store, and leaves the right world iff its consumer is quiet. */
  ghost predicate StepsWell(m: Machine, g: Graph, tr: Trace, cuts: seq<nat>, consumers: seq<nat>, pieces: seq<Piece>, i: nat)
    requires SingleAssignment(g) && IsPartition(g, cuts) && i < |pieces| && |consumers| == |pieces| == |cuts| - 1
  {
    Filled(m, g, tr, pieces, i, AfterCuts(m, tr, pieces, i)) && AfterCuts(m, tr, pieces, i).world == tr.worlds(cuts[i]) ==>
      && Filled(m, g, tr, pieces, i + 1, AfterCuts(m, tr, pieces, i + 1))
      && Quiet(m, g, tr, cuts[i + 1], consumers[i]) == (AfterCuts(m, tr, pieces, i + 1).world == tr.worlds(cuts[i + 1]))
  }

  lemma PieceStepsWell(m: Machine, g: Graph, tr: Trace, cuts: seq<nat>, consumers: seq<nat>, pieces: seq<Piece>, i: nat)
    requires WellFormed(g) && Faithful(m) && Follows(m, g, tr) && IsPartition(g, cuts) && AreCompiled(g, cuts, consumers, pieces)
    requires AllCanBeCut(g, cuts, consumers) && ProducersFed(g, cuts) && i < |pieces|
    ensures StepsWell(m, g, tr, cuts, consumers, pieces, i)
  {
    var s := AfterCuts(m, tr, pieces, i);
    if Filled(m, g, tr, pieces, i, s) && s.world == tr.worlds(cuts[i]) {
      NextCut(m, pieces, i, State(map[], tr.worlds(0)));
      CutStep(m, g, tr, cuts, consumers, pieces, i, s, AfterCuts(m, tr, pieces, i + 1));
    }
  }

  lemma {:induction false} TrackIsQuiet(m: Machine, g: Graph, tr: Trace, cuts: seq<nat>, consumers: seq<nat>,
                                        pieces: seq<Piece>, n: nat)
    requires SingleAssignment(g) && IsPartition(g, cuts) && n <= |pieces| && |consumers| == |pieces| == |cuts| - 1
    requires forall i :: 0 <= i < |pieces| ==> StepsWell(m, g, tr, cuts, consumers, pieces, i)
    ensures OnTrack(m, tr, cuts, pieces, n) == AllQuiet(m, g, tr, cuts, consumers, n)
    ensures AllQuiet(m, g, tr, cuts, consumers, n) ==> Filled(m, g, tr, pieces, n, AfterCuts(m, tr, pieces, n))
  {
    if n != 0 {
      TrackIsQuiet(m, g, tr, cuts, consumers, pieces, n - 1);
      assert StepsWell(m, g, tr, cuts, consumers, pieces, n - 1);
      OnTrackNext(m, tr, cuts, pieces, n);
      AllQuietNext(m, g, tr, cuts, consumers, n);
      QuietKeepsTrack(m, g, tr, cuts, consumers, pieces, n);
    }
  }

  /**
   * Main theorem: pieces that can be cut, with all inputs stored, follow the whole pipeline exactly if no attached consumer
   * changes the world. Then every stored column has its value in the whole pipeline, too.
   */
  lemma CutsFollowIff(m: Machine, g: Graph, w: World, cuts: seq<nat>, consumers: seq<nat>, pieces: seq<Piece>)
    requires WellFormed(g) && Faithful(m) && IsPartition(g, cuts) && AreCompiled(g, cuts, consumers, pieces)
    requires AllCanBeCut(g, cuts, consumers) && ProducersFed(g, cuts)
    ensures OnTrack(m, WholeTrace(m, g, w), cuts, pieces, |pieces|)
         == AllQuiet(m, g, WholeTrace(m, g, w), cuts, consumers, |pieces|)
    ensures AllQuiet(m, g, WholeTrace(m, g, w), cuts, consumers, |pieces|) ==>
      Agrees(m, g, WholeTrace(m, g, w), RunCuts(m, pieces, |pieces|, State(map[], w)).columns)
  {
    WholeFollows(m, g, w);
    var tr := WholeTrace(m, g, w);
    forall i | 0 <= i < |pieces| ensures StepsWell(m, g, tr, cuts, consumers, pieces, i) {
      PieceStepsWell(m, g, tr, cuts, consumers, pieces, i);
    }
    TrackIsQuiet(m, g, tr, cuts, consumers, pieces, |pieces|);
    assert tr.worlds(0) == w;
  }

  /** Pieces that keep strong links together have nothing attached, and are closed. */
  lemma KeptTogetherIsClosed(g: Graph, start: nat, end: nat, consumer: nat, piece: Piece)
    requires WellFormed(g) && start < end <= |g.ops| && KeepsLinksTogether(g, start, end)
    requires IsCutPiece(g, start, end, consumer, piece)
    ensures piece.ops == g.ops[start..end] && !g.ops[start].strongIn && !g.ops[end - 1].strongOut
    ensures CanBeCut(g, start, end, consumer) && PieceClosed(g, piece)
  {
    EndsAreWeak(g, start, end, piece.ops);
    WeakEnd(g, start, end, consumer, piece);
    forall k, v | start <= k < end && IsHandle(g, k, v) && v.isVoid ensures v in g.owner && start <= g.owner[v] {
      HandleFromBefore(g, k, v);
    }
    PieceClosedIff(g, start, end, consumer, piece);
  }

  lemma WeakEnd(g: Graph, start: nat, end: nat, consumer: nat, piece: Piece)
    requires WellFormed(g) && start < end <= |g.ops| && HasShape(g, start, end, consumer, piece)
    requires piece.ops == g.ops[start..end]
    ensures !g.ops[end - 1].strongOut
  {
    assert |g.ops[start..end]| == end - start;
  }

  /** So a partition that keeps all strong links together fits, and runs as the whole pipeline does. */
  lemma KeptTogetherFits(m: Machine, g: Graph, w: World, cuts: seq<nat>, consumers: seq<nat>, pieces: seq<Piece>)
    requires WellFormed(g) && Faithful(m) && IsPartition(g, cuts) && AreCompiled(g, cuts, consumers, pieces)
    requires forall i :: 0 <= i < |pieces| ==> KeepsLinksTogether(g, cuts[i], cuts[i + 1])
    ensures AllCanBeCut(g, cuts, consumers) && InputsStored(g, cuts, pieces)
    ensures OnTrack(m, WholeTrace(m, g, w), cuts, pieces, |pieces|)
  {
    forall i | 0 <= i < |pieces|
      ensures CanBeCut(g, cuts[i], cuts[i + 1], consumers[i]) && Quiet(m, g, WholeTrace(m, g, w), cuts[i + 1], consumers[i])
      ensures !g.ops[cuts[i]].strongIn
    {
      assert KeepsLinksTogether(g, cuts[i], cuts[i + 1]);
      assert IsCompiled(g, cuts[i], cuts[i + 1], consumers[i], pieces[i]);
      KeptTogetherIsClosed(g, cuts[i], cuts[i + 1], consumers[i], pieces[i]);
    }
    assert ProducersFed(g, cuts);
    InputsStoredIff(g, cuts, consumers, pieces);
    CutsFollowIff(m, g, w, cuts, consumers, pieces);
  }

  // ---------------------------------------------------------------------------------------------
  // Cuts that do not fit
  // ---------------------------------------------------------------------------------------------

  const CONDITION := IU(0, false)
  const FILTERED := IU(1, false)
  const MASK := IU(2, true)
  const RESULT := IU(3, false)

  /** A filter: a source, the scope that turns a condition into a pseudo column, and the logic that filters a column. */
  function FilterGraph(): Graph {
    Graph([Op(0, [], [CONDITION, FILTERED], false, false),
           Op(1, [CONDITION], [MASK], false, true),
           Op(2, [MASK, FILTERED], [RESULT], true, false)],
          map[CONDITION := 0, FILTERED := 0, MASK := 1, RESULT := 2])
  }

  lemma FilterAssignsOnce()
    ensures SingleAssignment(FilterGraph())
  {
    var g := FilterGraph();
    assert g.ops[0].outs == [CONDITION, FILTERED] && g.ops[1].outs == [MASK] && g.ops[2].outs == [RESULT];
    assert g.ops[0].sources == [] && g.ops[1].sources == [CONDITION] && g.ops[2].sources == [MASK, FILTERED];
  }

  lemma FilterIsWellFormed()
    ensures WellFormed(FilterGraph())
    ensures Partner(FilterGraph(), 2) == 1
  {
    var g := FilterGraph();
    FilterAssignsOnce();
    assert LinkedProperly(g, 0) && LinkedProperly(g, 1) && LinkedProperly(g, 2);
  }

  /** Cut behind its scope, a filter does not fit: the condition that the second piece reads is not stored. */
  lemma FilterCutBehindScope(first: Piece, second: Piece)
    requires RequiredSinks(FilterGraph(), 0, 2, first.sinks)
    requires WellFormed(FilterGraph()) && IsPiece(FilterGraph(), 2, 3, second.sinks, second)
    ensures CONDITION in second.inputs && CONDITION !in first.sinks
  {
    FilterIsWellFormed();
    assert Misses(FilterGraph(), 2, 3, CONDITION);
    assert forall k :: 2 <= k < 3 ==> CONDITION !in FilterGraph().ops[k].sources;
  }

  /** The scope alone is not closed: the logic that is attached behind it filters a column that the piece does not read. */
  lemma ScopeAloneIsOpen(consumer: nat, piece: Piece)
    requires WellFormed(FilterGraph()) && IsCutPiece(FilterGraph(), 1, 2, consumer, piece)
    ensures piece.ops == FilterGraph().ops[1..3] && FILTERED !in piece.inputs && !PieceClosed(FilterGraph(), piece)
  {
    var g := FilterGraph();
    FilterIsWellFormed();
    ConsumerIsBehind(g, consumer, 1);
    assert g.ops[1].strongOut && Attached(g, 1) == [];
    assert forall j :: 1 <= j < 2 ==> FILTERED !in g.ops[j].sources;
    assert FILTERED in g.ops[2].sources;
    assert !ConsumerFed(g, 1, 2, 2);
    PieceClosedIff(g, 1, 2, consumer, piece);
  }

  /** A strong producer without inputs, and a consumer without outputs. */
  function PairGraph(): Graph {
    Graph([Op(0, [], [MASK], false, true), Op(1, [MASK], [], true, false)], map[MASK := 0])
  }

  lemma PairIsWellFormed()
    ensures WellFormed(PairGraph()) && Partner(PairGraph(), 1) == 0
  {
    var g := PairGraph();
    assert SingleAssignment(g);
    assert LinkedProperly(g, 0) && LinkedProperly(g, 1);
  }

  /** Either half of the pair drags the other one in. */
  lemma PairPieces(consumers: seq<nat>, pieces: seq<Piece>)
    requires WellFormed(PairGraph()) && IsPartition(PairGraph(), [0, 1, 2])
    requires AreCompiled(PairGraph(), [0, 1, 2], consumers, pieces)
    ensures AllCanBeCut(PairGraph(), [0, 1, 2], consumers) && InputsStored(PairGraph(), [0, 1, 2], pieces)
    ensures pieces[0].ops == pieces[1].ops == PairGraph().ops
  {
    var g := PairGraph();
    PairIsWellFormed();
    assert IsCompiled(g, [0, 1, 2][0], [0, 1, 2][1], consumers[0], pieces[0]);
    assert IsCompiled(g, [0, 1, 2][1], [0, 1, 2][2], consumers[1], pieces[1]);
    ConsumerIsBehind(g, consumers[0], 0);
    assert CanBeCut(g, 0, 1, consumers[0]) && CanBeCut(g, 1, 2, consumers[1]);
    assert ProducersFed(g, [0, 1, 2]);
    InputsStoredIff(g, [0, 1, 2], consumers, pieces);
  }

  /** What the consumer reads, whatever the world. */
  function MaskOnly(m: Machine, w: World): seq<Column> {
    [m.out(PairGraph().ops[0], [], w, MASK)]
  }

  lemma PairRuns(m: Machine, w: World, piece: Piece, s: State)
    requires WellFormed(PairGraph()) && Faithful(m) && piece.ops == PairGraph().ops
    ensures RunPiece(m, piece, s).world == m.next(PairGraph().ops[1], MaskOnly(m, w), s.world)
  {
    var g := PairGraph();
    var begin := State(Copied(piece, s.columns), s.world);
    var first := Exec(m, g.ops[0], begin);
    OneMore(m, g.ops, 0, begin);
    OneMore(m, g.ops, 1, begin);
    OneMore(m, g.ops, 0, State(map[], w));
    assert Inputs(m, begin.columns, []) == Inputs(m, map[], []);
    assert Inputs(m, first.columns, [MASK]) == MaskOnly(m, w);
  }

  /** Cut in the middle, both pieces are closed and all inputs are stored. But the consumer acts on the world twice. */
  lemma ConsumerActsTwice(m: Machine, w: World, consumers: seq<nat>, pieces: seq<Piece>)
    requires WellFormed(PairGraph()) && Faithful(m) && IsPartition(PairGraph(), [0, 1, 2])
    requires AreCompiled(PairGraph(), [0, 1, 2], consumers, pieces)
    ensures AllCanBeCut(PairGraph(), [0, 1, 2], consumers) && InputsStored(PairGraph(), [0, 1, 2], pieces)
    ensures RunCuts(m, pieces, 2, State(map[], w)).world
         == m.next(PairGraph().ops[1], MaskOnly(m, w),
                   m.next(PairGraph().ops[1], MaskOnly(m, w), w))
  {
    PairPieces(consumers, pieces);
    NextCut(m, pieces, 0, State(map[], w));
    NextCut(m, pieces, 1, State(map[], w));
    PairRuns(m, w, pieces[0], State(map[], w));
    PairRuns(m, w, pieces[1], RunCuts(m, pieces, 1, State(map[], w)));
  }

  lemma NextCut(m: Machine, pieces: seq<Piece>, n: nat, s: State)
    requires n < |pieces|
    ensures RunCuts(m, pieces, n + 1, s) == RunPiece(m, pieces[n], RunCuts(m, pieces, n, s))
  {
  }
}
