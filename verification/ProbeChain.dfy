/** Linear probing over a cyclic array of tagged slots, independent of who probes. */
module ProbeChain {
  import opened Options
  import opened Hashing

  /** One step of a probe, wrapping around behind the last slot. */
  function Next(s: nat, mask: nat): nat
    requires s <= mask
  {
    if s == mask then 0 else s + 1
  }

  /** How many steps a probe that starts at `home` takes to reach slot `s`. */
  function Dist(home: nat, s: nat, mask: nat): nat
    requires home <= mask && s <= mask
  {
    if s >= home then s - home else s + mask + 1 - home
  }

  /** Every slot that a probe from `home` visits before it reaches `s` is filled. */
  ghost predicate PathFilled(tags: seq<bv8>, mask: nat, home: nat, s: nat)
    requires |tags| == mask + 1 && home <= mask && s <= mask
  {
    forall j :: 0 <= j <= mask && Dist(home, j, mask) < Dist(home, s, mask) ==> Filled(tags[j])
  }

  ghost predicate HasFree(tags: seq<bv8>) {
    exists e :: 0 <= e < |tags| && !Filled(tags[e])
  }

  /** A step from a filled slot keeps the path filled and, as long as a free slot exists, never returns to the start. */
  lemma PathAdvance(tags: seq<bv8>, mask: nat, home: nat, s: nat)
    requires |tags| == mask + 1 && home <= mask && s <= mask
    requires PathFilled(tags, mask, home, s) && Filled(tags[s])
    requires HasFree(tags)
    ensures Dist(home, Next(s, mask), mask) == Dist(home, s, mask) + 1
    ensures PathFilled(tags, mask, home, Next(s, mask))
  {
    var e :| 0 <= e < |tags| && !Filled(tags[e]);
    assert Dist(home, e, mask) > Dist(home, s, mask);
    forall j | 0 <= j <= mask && Dist(home, j, mask) < Dist(home, Next(s, mask), mask)
      ensures Filled(tags[j])
    {
      assert j == s || Dist(home, j, mask) < Dist(home, s, mask);
    }
  }

  lemma PathMonotone(tags: seq<bv8>, tags': seq<bv8>, mask: nat, home: nat, s: nat)
    requires |tags| == |tags'| == mask + 1 && home <= mask && s <= mask
    requires PathFilled(tags, mask, home, s)
    requires forall j :: 0 <= j <= mask && Filled(tags[j]) ==> Filled(tags'[j])
    ensures PathFilled(tags', mask, home, s)
  {
  }

  /** A probe that reaches a free slot has passed every filled slot whose own path starts at the same home. */
  lemma FreeSlotEndsChain(tags: seq<bv8>, mask: nat, home: nat, free: nat, s: nat)
    requires |tags| == mask + 1 && home <= mask && free <= mask && s <= mask
    requires !Filled(tags[free]) && Filled(tags[s])
    requires PathFilled(tags, mask, home, s)
    ensures Dist(home, s, mask) < Dist(home, free, mask)
  {
  }

  function Slots(tags: seq<bv8>): set<nat> {
    set i: nat | i < |tags| && Filled(tags[i])
  }

  /** The slots visited in the first `d` steps from `home`. */
  function Visited(home: nat, mask: nat, d: nat): set<nat>
    requires home <= mask
  {
    set j: nat | j <= mask && Dist(home, j, mask) < d
  }

  lemma {:induction false} VisitedSize(home: nat, mask: nat, d: nat)
    requires home <= mask && d <= mask + 1
    ensures |Visited(home, mask, d)| == d
  {
    if d > 0 {
      var j := if home + d - 1 <= mask then home + d - 1 else home + d - 1 - (mask + 1);
      assert Dist(home, j, mask) == d - 1;
      assert Visited(home, mask, d) == Visited(home, mask, d - 1) + {j};
      VisitedSize(home, mask, d - 1);
    } else {
      assert Visited(home, mask, d) == {};
    }
  }

  lemma {:induction false} SubsetSize<T>(a: set<T>, b: set<T>)
    requires a <= b
    ensures |a| <= |b|
  {
    if a != {} {
      var x :| x in a;
      SubsetSize(a - {x}, b - {x});
    }
  }

  /** A probe has advanced at most once per filled slot. */
  lemma AdvancesAtMostFilled(tags: seq<bv8>, mask: nat, home: nat, s: nat)
    requires |tags| == mask + 1 && home <= mask && s <= mask
    requires PathFilled(tags, mask, home, s)
    ensures Dist(home, s, mask) <= |Slots(tags)|
  {
    var d := Dist(home, s, mask);
    VisitedSize(home, mask, d);
    assert Visited(home, mask, d) <= Slots(tags);
    SubsetSize(Visited(home, mask, d), Slots(tags));
  }

  // ---------------------------------------------------------------------------------------------
  // Tables at rest
  // ---------------------------------------------------------------------------------------------

  /**
   * A table nobody is writing to: free slots carry tag zero, a filled slot carries the tag of its key and can be reached
   * from the home of its key over filled slots only, and at least one slot is free.
   */
  ghost predicate Table<V>(hash: Key -> Hash, mask: nat, tagOf: Hash -> bv8, tags: seq<bv8>, data: seq<Row<V>>) {
    && |tags| == |data| == mask + 1
    && HasFree(tags)
    && forall i :: 0 <= i <= mask ==> SlotInChain(hash, mask, tagOf, tags, data, i)
  }

  ghost predicate SlotInChain<V>(hash: Key -> Hash, mask: nat, tagOf: Hash -> bv8, tags: seq<bv8>, data: seq<Row<V>>, i: nat)
    requires |tags| == |data| == mask + 1 && i <= mask
  {
    if Filled(tags[i]) then
      tags[i] == tagOf(hash(data[i].key)) && PathFilled(tags, mask, Home(hash, mask, data[i].key), i)
    else
      tags[i] == 0
  }

  /** The rows of the filled slots in slot order. */
  function Stored<V>(tags: seq<bv8>, data: seq<Row<V>>): seq<Row<V>>
    requires |tags| == |data|
  {
    if tags == [] then []
    else (if Filled(tags[0]) then [data[0]] else []) + Stored(tags[1..], data[1..])
  }

  lemma {:induction false} StoredIff<V>(tags: seq<bv8>, data: seq<Row<V>>, row: Row<V>)
    requires |tags| == |data|
    ensures row in Stored(tags, data) <==> exists i :: 0 <= i < |tags| && Filled(tags[i]) && data[i] == row
  {
    if tags != [] {
      StoredIff(tags[1..], data[1..], row);
      if i :| 0 <= i < |tags| && Filled(tags[i]) && data[i] == row {
        if i > 0 {
          assert Filled(tags[1..][i - 1]) && data[1..][i - 1] == row;
        }
      }
      if j :| 0 <= j < |tags| - 1 && Filled(tags[1..][j]) && data[1..][j] == row {
        assert Filled(tags[j + 1]) && data[j + 1] == row;
      }
    }
  }

  /** Every filled slot can be reached from the home of its key over filled slots only. */
  ghost predicate Chained<V>(hash: Key -> Hash, mask: nat, tags: seq<bv8>, data: seq<Row<V>>) {
    && |tags| == |data| == mask + 1
    && forall i :: 0 <= i <= mask && Filled(tags[i]) ==> PathFilled(tags, mask, Home(hash, mask, data[i].key), i)
  }

  lemma TableIsChained<V>(hash: Key -> Hash, mask: nat, tagOf: Hash -> bv8, tags: seq<bv8>, data: seq<Row<V>>)
    requires Table(hash, mask, tagOf, tags, data)
    ensures Chained(hash, mask, tags, data)
  {
    forall i | 0 <= i <= mask && Filled(tags[i])
      ensures PathFilled(tags, mask, Home(hash, mask, data[i].key), i)
    {
      assert SlotInChain(hash, mask, tagOf, tags, data, i);
    }
  }

  /** Slot `i` answers a lookup of `key`: it is filled, its tag is one the lookup accepts, and it holds the key. */
  predicate Answers<V>(tags: seq<bv8>, data: seq<Row<V>>, accepts: bv8 -> bool, key: Key, i: nat)
    requires i < |tags| == |data|
  {
    Filled(tags[i]) && accepts(tags[i]) && data[i].key == key
  }

  /** The outcome of a lookup: the first answering slot behind the home of the key, or none if no slot of the table answers. */
  ghost predicate IsHit<V>(hash: Key -> Hash, mask: nat, tags: seq<bv8>, data: seq<Row<V>>, accepts: bv8 -> bool, key: Key,
                           r: Option<nat>)
    requires |tags| == |data| == mask + 1
  {
    match r
    case None => forall i :: 0 <= i <= mask ==> !Answers(tags, data, accepts, key, i)
    case Some(i) =>
      && i <= mask
      && Answers(tags, data, accepts, key, i)
      && forall j :: 0 <= j <= mask && Dist(Home(hash, mask, key), j, mask) < Dist(Home(hash, mask, key), i, mask)
           ==> !Answers(tags, data, accepts, key, j)
  }

  /** No slot that a probe for `key` visits before `idx` answers. */
  ghost predicate NoAnswerBefore<V>(hash: Key -> Hash, mask: nat, tags: seq<bv8>, data: seq<Row<V>>, accepts: bv8 -> bool,
                                    key: Key, idx: nat)
    requires |tags| == |data| == mask + 1 && idx <= mask
  {
    forall j :: 0 <= j <= mask && Dist(Home(hash, mask, key), j, mask) < Dist(Home(hash, mask, key), idx, mask)
      ==> !Answers(tags, data, accepts, key, j)
  }

  /** A probe steps over a filled slot that does not answer. */
  lemma NoAnswerAdvance<V>(hash: Key -> Hash, mask: nat, tags: seq<bv8>, data: seq<Row<V>>, accepts: bv8 -> bool, key: Key,
                           idx: nat)
    requires |tags| == |data| == mask + 1 && HasFree(tags) && idx <= mask && Filled(tags[idx])
    requires PathFilled(tags, mask, Home(hash, mask, key), idx)
    requires NoAnswerBefore(hash, mask, tags, data, accepts, key, idx) && !Answers(tags, data, accepts, key, idx)
    ensures var home := Home(hash, mask, key);
      Dist(home, Next(idx, mask), mask) == Dist(home, idx, mask) + 1 && PathFilled(tags, mask, home, Next(idx, mask))
    ensures NoAnswerBefore(hash, mask, tags, data, accepts, key, Next(idx, mask))
  {
    var home := Home(hash, mask, key);
    PathAdvance(tags, mask, home, idx);
    forall j | 0 <= j <= mask && Dist(home, j, mask) < Dist(home, Next(idx, mask), mask)
      ensures !Answers(tags, data, accepts, key, j)
    {
      assert j == idx || Dist(home, j, mask) < Dist(home, idx, mask);
    }
  }

  /** A probe that reaches a free slot without an answer may stop: no slot behind it can hold the key. */
  lemma FreeSlotMeansMiss<V>(hash: Key -> Hash, mask: nat, tags: seq<bv8>, data: seq<Row<V>>, accepts: bv8 -> bool, key: Key,
                             idx: nat)
    requires Chained(hash, mask, tags, data) && idx <= mask && !Filled(tags[idx])
    requires NoAnswerBefore(hash, mask, tags, data, accepts, key, idx)
    ensures IsHit(hash, mask, tags, data, accepts, key, None)
  {
    forall i | 0 <= i <= mask ensures !Answers(tags, data, accepts, key, i) {
      if Answers(tags, data, accepts, key, i) {
        FreeSlotEndsChain(tags, mask, Home(hash, mask, key), idx, i);
      }
    }
  }
}
