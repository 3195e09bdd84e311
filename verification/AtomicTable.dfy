/**
 * The operations of the shared hash table as loops over its tag and data arrays. Interleavings of these operations
 * are the subject of AtomicBuild, SemiJoin and OuterJoin; here one thread runs alone.
 */
module AtomicTable {
  import opened Options
  import opened Hashing
  import opened ProbeChain

  class AtomicHashTable<V(!new)> {
    const hash: Key -> Hash
    const modMask: nat
    const tags: array<bv8>
    const data: array<Row<V>>

    ghost predicate Valid()
      reads this, tags, data
    {
      && (tags as object) != (data as object)
      && Chained(hash, modMask, tags[..], data[..])
    }

    /** The size check of the original constructor: a power of two of at least two. */
    static predicate ValidSize(numSlots: nat) {
      numSlots >= 2 && BitAnd(numSlots, numSlots - 1) == 0
    }

    /** `zero` is what zeroed memory reads as. */
    constructor (hash: Key -> Hash, numSlots: nat, zero: Row<V>)
      requires ValidSize(numSlots)
      ensures Valid() && this.hash == hash && modMask == numSlots - 1 && fresh(tags) && fresh(data)
      ensures forall i :: 0 <= i < numSlots ==> tags[i] == 0 && data[i] == zero
    {
      this.hash := hash;
      this.modMask := numSlots - 1;
      this.tags := new bv8[numSlots](_ => 0);
      this.data := new Row<V>[numSlots](_ => zero);
    }

    /** Sizes that the original rejects with an exception yield no table. */
    static method Create(hash: Key -> Hash, numSlots: nat, zero: Row<V>) returns (r: Option<AtomicHashTable<V>>)
      ensures r.Some? <==> ValidSize(numSlots)
      ensures r.Some? ==> fresh(r.value) && r.value.Valid() && r.value.hash == hash && r.value.modMask == numSlots - 1
      ensures r.Some? ==> Stored(r.value.tags[..], r.value.data[..]) == []
    {
      if numSlots < 2 || BitAnd(numSlots, numSlots - 1) != 0 {
        return None;
      }
      var t := new AtomicHashTable(hash, numSlots, zero);
      NothingStored(t.tags[..], t.data[..]);
      return Some(t);
    }

    /**
     * The probe loop that all lookups share: walk the chain of the key until a slot with an acceptable tag holds the key
     * or a free slot ends the chain. It ends although nothing bounds it, because a free slot exists.
     */
    method Find(key: Key, accepts: bv8 -> bool) returns (r: Option<nat>)
      requires Valid() && HasFree(tags[..])
      ensures IsHit(hash, modMask, tags[..], data[..], accepts, key, r)
    {
      var idx: nat := Home(hash, modMask, key);
      ghost var home, ts, ds := idx, tags[..], data[..];
      while true
        invariant idx <= modMask
        invariant PathFilled(ts, modMask, home, idx)
        invariant NoAnswerBefore(hash, modMask, ts, ds, accepts, key, idx)
        decreases modMask + 1 - Dist(home, idx, modMask)
      {
        assert ts[idx] == tags[idx] && ds[idx] == data[idx];
        if !Filled(tags[idx]) {
          FreeSlotMeansMiss(hash, modMask, ts, ds, accepts, key, idx);
          return None;
        }
        if accepts(tags[idx]) && data[idx].key == key {
          return Some(idx);
        }
        NoAnswerAdvance(hash, modMask, ts, ds, accepts, key, idx);
        idx := Next(idx, modMask);
      }
    }

    /** Returns the slot of the first live row with the key; a miss is reported only if no live row has the key. */
    method Lookup(key: Key, h: Hash) returns (r: Option<nat>)
      requires Valid() && HasFree(tags[..]) && h == hash(key)
      ensures IsHit(hash, modMask, tags[..], data[..], t => t == TargetTag(h), key, r)
    {
      r := Find(key, t => t == TargetTag(h));
    }

    /** Like Lookup, but the row found is consumed: its fingerprint is inverted and nothing else changes. */
    method LookupDisable(key: Key, h: Hash) returns (r: Option<nat>)
      requires Valid() && HasFree(tags[..]) && h == hash(key)
      modifies tags
      ensures Valid() && HasFree(tags[..])
      ensures IsHit(hash, modMask, old(tags[..]), data[..], t => t == TargetTag(h), key, r)
      ensures tags[..] == if r.Some? then old(tags[..])[r.value := InvertedTag(h)] else old(tags[..])
    {
      r := Find(key, t => t == TargetTag(h));
      if r.Some? {
        tags[r.value] := InvertedTag(h);
        InvertedTagIsDead(h);
        assert tags[..] == old(tags[..])[r.value := InvertedTag(h)] && data[..] == old(data[..]);
        ChainSurvives(old(tags[..]), tags[..], r.value);
      }
    }

    /** Like Lookup for outer tables: the row found is marked, whether or not it was marked before. */
    method LookupOuter(key: Key, h: Hash) returns (r: Option<nat>)
      requires Valid() && HasFree(tags[..]) && h == hash(key)
      modifies tags
      ensures Valid() && HasFree(tags[..])
      ensures IsHit(hash, modMask, old(tags[..]), data[..], t => OuterFingerprint(t) == OuterFingerprint(TopByte(h)), key, r)
      ensures tags[..] == if r.Some? then old(tags[..])[r.value := MarkedTag(h)] else old(tags[..])
    {
      r := Find(key, t => OuterFingerprint(t) == OuterFingerprint(TopByte(h)));
      if r.Some? {
        if tags[r.value] != MarkedTag(h) {
          tags[r.value] := MarkedTag(h);
        }
        MarkedTagKeepsFingerprint(h);
        assert tags[..] == old(tags[..])[r.value := MarkedTag(h)] && data[..] == old(data[..]);
        ChainSurvives(old(tags[..]), tags[..], r.value);
      }
    }

    /** Rewriting the tag of a filled slot with another filled tag leaves every chain intact. */
    lemma ChainSurvives(before: seq<bv8>, after: seq<bv8>, i: nat)
      requires i <= modMask && |before| == modMask + 1 && Chained(hash, modMask, before, data[..]) && HasFree(before)
      requires Filled(before[i]) && |after| == |before| && after == before[i := after[i]] && Filled(after[i])
      ensures Chained(hash, modMask, after, data[..]) && HasFree(after)
    {
      var e :| 0 <= e < |before| && !Filled(before[e]);
      assert !Filled(after[e]);
    }

    /**
     * Claims the first free slot behind the home of the key and copies the row (or only its key) into it. Which tag is
     * written is what distinguishes inserts into plain tables from inserts into outer tables.
     */
    method InsertTagged(row: Row<V>, h: Hash, tag: bv8, copyOnlyKey: bool) returns (slot: nat)
      requires Valid() && HasFree(tags[..]) && h == hash(row.key) && Filled(tag)
      modifies tags, data
      ensures Valid()
      ensures slot <= modMask && !Filled(old(tags[slot]))
      ensures PathFilled(old(tags[..]), modMask, Home(hash, modMask, row.key), slot)
      ensures tags[..] == old(tags[..])[slot := tag]
      ensures data[..] == old(data[..])[slot := if copyOnlyKey then Row(row.key, old(data[slot]).payload) else row]
    {
      var idx: nat := Home(hash, modMask, row.key);
      ghost var home: nat := idx;
      while Filled(tags[idx])
        invariant idx <= modMask && tags[..] == old(tags[..]) && data[..] == old(data[..])
        invariant PathFilled(tags[..], modMask, home, idx)
        decreases modMask + 1 - Dist(home, idx, modMask)
      {
        PathAdvance(tags[..], modMask, home, idx);
        idx := Next(idx, modMask);
      }
      tags[idx] := tag;
      if copyOnlyKey {
        data[idx] := Row(row.key, data[idx].payload);
      } else {
        data[idx] := row;
      }
      assert tags[..] == old(tags[..])[idx := tag];
      forall i | 0 <= i <= modMask && Filled(tags[i])
        ensures PathFilled(tags[..], modMask, Home(hash, modMask, data[i].key), i)
      {
        PathMonotone(old(tags[..]), tags[..], modMask, Home(hash, modMask, data[i].key), i);
      }
      slot := idx;
    }

    method Insert(row: Row<V>, h: Hash, copyOnlyKey: bool) returns (slot: nat)
      requires Valid() && HasFree(tags[..]) && h == hash(row.key)
      modifies tags, data
      ensures Valid()
      ensures slot <= modMask && !Filled(old(tags[slot]))
      ensures PathFilled(old(tags[..]), modMask, Home(hash, modMask, row.key), slot)
      ensures tags[..] == old(tags[..])[slot := TargetTag(h)]
      ensures data[..] == old(data[..])[slot := if copyOnlyKey then Row(row.key, old(data[slot]).payload) else row]
    {
      slot := InsertTagged(row, h, TargetTag(h), copyOnlyKey);
    }

    method InsertOuter(row: Row<V>, h: Hash, copyOnlyKey: bool) returns (slot: nat)
      requires Valid() && HasFree(tags[..]) && h == hash(row.key)
      modifies tags, data
      ensures Valid()
      ensures slot <= modMask && !Filled(old(tags[slot]))
      ensures PathFilled(old(tags[..]), modMask, Home(hash, modMask, row.key), slot)
      ensures tags[..] == old(tags[..])[slot := OuterTag(h)]
      ensures data[..] == old(data[..])[slot := if copyOnlyKey then Row(row.key, old(data[slot]).payload) else row]
    {
      slot := InsertTagged(row, h, OuterTag(h), copyOnlyKey);
    }

    // -------------------------------------------------------------------------------------------
    // The outer join iterator. A null data pointer is None; the index stays where it was.
    // -------------------------------------------------------------------------------------------

    method ItAdvanceNoWrap(it: nat) returns (ptr: Option<nat>, idx: nat)
      requires it <= modMask
      ensures if it == modMask then ptr == None && idx == it else ptr == Some(it + 1) && idx == it + 1
    {
      if it == modMask {
        return None, it;
      } else {
        return Some(it + 1), it + 1;
      }
    }

    /** The iterator is exhausted, or it rests on the first row at or behind `from` that found no join partner. */
    ghost predicate RestsAt(from: nat, ptr: Option<nat>)
      reads this, tags
      requires tags.Length == modMask + 1
    {
      match ptr
      case None => forall i :: from <= i <= modMask ==> !Partnerless(tags[i])
      case Some(i) => from <= i <= modMask && Partnerless(tags[i]) && forall j :: from <= j < i ==> !Partnerless(tags[j])
    }

    method SkipToPartnerless(start: nat) returns (ptr: Option<nat>, idx: nat)
      requires tags.Length == modMask + 1 && start <= modMask
      ensures RestsAt(start, ptr)
      ensures idx <= modMask && (ptr.Some? ==> ptr.value == idx)
    {
      ptr, idx := Some(start), start;
      var tag := tags[idx];
      while (!Filled(tag) || Marked(tag)) && ptr.Some?
        invariant start <= idx <= modMask && tag == tags[idx]
        invariant forall j :: start <= j < idx ==> !Partnerless(tags[j])
        invariant if ptr.Some? then ptr.value == idx else idx == modMask && !Partnerless(tag)
        decreases modMask - idx, ptr.Some?
      {
        ptr, idx := ItAdvanceNoWrap(idx);
        tag := tags[idx];
      }
    }

    method IteratorStart() returns (ptr: Option<nat>, idx: nat)
      requires tags.Length == modMask + 1
      ensures RestsAt(0, ptr)
      ensures idx <= modMask && (ptr.Some? ==> ptr.value == idx)
    {
      ptr, idx := SkipToPartnerless(0);
    }

    method IteratorAdvance(it: nat) returns (ptr: Option<nat>, idx: nat)
      requires tags.Length == modMask + 1 && it <= modMask
      ensures RestsAt(it + 1, ptr)
      ensures idx <= modMask && (ptr.Some? ==> ptr.value == idx)
    {
      ptr, idx := ItAdvanceNoWrap(it);
      if ptr.Some? {
        ptr, idx := SkipToPartnerless(idx);
      }
    }

    /** Walking the iterator to its end yields every row without a join partner exactly once, in slot order. */
    method ScanPartnerless() returns (rows: seq<Row<V>>)
      requires tags.Length == data.Length == modMask + 1
      ensures rows == StoredWhere(tags[..], data[..], Partnerless)
    {
      ghost var ts, ds, from := tags[..], data[..], 0;
      rows := [];
      var ptr, idx := IteratorStart();
      assert ts[0..] == ts && ds[0..] == ds;
      while ptr.Some?
        invariant 0 <= from <= modMask + 1 && RestsAt(from, ptr)
        invariant ptr.Some? ==> ptr.value == idx
        invariant rows + StoredFrom(ts, ds, Partnerless, from) == StoredWhere(ts, ds, Partnerless)
        decreases modMask + 1 - from
      {
        NextRow(ts, ds, Partnerless, from, idx, rows);
        rows := rows + [data[idx]];
        from := idx + 1;
        ptr, idx := IteratorAdvance(idx);
      }
      NoMoreRows(ts, ds, Partnerless, from, rows);
    }
  }

  /** A filled slot whose mark bit is clear. */
  predicate Partnerless(tag: bv8) {
    Filled(tag) && !Marked(tag)
  }

  /** The rows of the slots whose tag satisfies `p`, in slot order. */
  function StoredWhere<V>(tags: seq<bv8>, data: seq<Row<V>>, p: bv8 -> bool): seq<Row<V>>
    requires |tags| == |data|
  {
    if tags == [] then []
    else (if p(tags[0]) then [data[0]] else []) + StoredWhere(tags[1..], data[1..], p)
  }

  lemma {:induction false} SkipPrefix<V>(tags: seq<bv8>, data: seq<Row<V>>, p: bv8 -> bool, n: nat)
    requires |tags| == |data| && n <= |tags|
    requires forall i :: 0 <= i < n ==> !p(tags[i])
    ensures StoredWhere(tags, data, p) == StoredWhere(tags[n..], data[n..], p)
  {
    if n > 0 {
      SkipPrefix(tags[1..], data[1..], p, n - 1);
      assert tags[1..][n - 1..] == tags[n..] && data[1..][n - 1..] == data[n..];
    }
  }

  function StoredFrom<V>(tags: seq<bv8>, data: seq<Row<V>>, p: bv8 -> bool, from: nat): seq<Row<V>>
    requires |tags| == |data| && from <= |tags|
  {
    StoredWhere(tags[from..], data[from..], p)
  }

  lemma NextRow<V>(tags: seq<bv8>, data: seq<Row<V>>, p: bv8 -> bool, from: nat, idx: nat, rows: seq<Row<V>>)
    requires |tags| == |data| && from <= idx < |tags|
    requires p(tags[idx]) && forall i :: from <= i < idx ==> !p(tags[i])
    ensures rows + [data[idx]] + StoredFrom(tags, data, p, idx + 1) == rows + StoredFrom(tags, data, p, from)
  {
    SkipPrefix(tags[from..], data[from..], p, idx - from);
    assert tags[from..][idx - from..] == tags[idx..] && data[from..][idx - from..] == data[idx..];
    assert tags[idx..][1..] == tags[idx + 1..] && data[idx..][1..] == data[idx + 1..];
    assert StoredFrom(tags, data, p, from) == [data[idx]] + StoredFrom(tags, data, p, idx + 1);
  }

  lemma NoMoreRows<V>(tags: seq<bv8>, data: seq<Row<V>>, p: bv8 -> bool, from: nat, rows: seq<Row<V>>)
    requires |tags| == |data| && from <= |tags| && forall i :: from <= i < |tags| ==> !p(tags[i])
    ensures rows + StoredFrom(tags, data, p, from) == rows
  {
    SkipPrefix(tags[from..], data[from..], p, |tags| - from);
  }

  lemma {:induction false} NothingStored<V>(tags: seq<bv8>, data: seq<Row<V>>)
    requires |tags| == |data| && forall i :: 0 <= i < |tags| ==> !Filled(tags[i])
    ensures Stored(tags, data) == []
  {
    if tags != [] {
      NothingStored(tags[1..], data[1..]);
    }
  }
}
