/**
 * The single-threaded hash tables behind aggregations: linear probing with doubling. One model covers simple and complex
 * keys, since both only hash and compare. A pointer into a table is a pair of a generation, which every doubling
 * advances, and a slot, so that pointers that a doubling left behind can be told from current ones.
 */
module SharedTable {
  import opened Options
  import opened Hashing
  import opened ProbeChain

  // ---------------------------------------------------------------------------------------------
  // The representation invariant, on the contents of the arrays
  // ---------------------------------------------------------------------------------------------

  /**
   * `slotOf` says where each key lives: exactly the filled slots are used, each by its own key, tagged with the hash of
   * the key and reachable from its home. The payload of a free slot is still zero.
   */
  ghost predicate Index<V>(hash: Key -> Hash, zero: V, mask: nat, tags: seq<bv8>, data: seq<Row<V>>, slotOf: map<Key, nat>) {
    && |tags| == |data| == mask + 1
    && (forall i :: 0 <= i <= mask ==> SlotInChain(hash, mask, TargetTag, tags, data, i))
    && (forall i :: 0 <= i <= mask && Filled(tags[i]) ==> data[i].key in slotOf && slotOf[data[i].key] == i)
    && (forall i :: 0 <= i <= mask && !Filled(tags[i]) ==> data[i].payload == zero)
    && (forall k :: k in slotOf ==> slotOf[k] <= mask && Filled(tags[slotOf[k]]) && data[slotOf[k]].key == k)
  }

  /** As long as there are fewer keys than slots, a probe always meets a free slot. */
  lemma IndexHasFree<V>(hash: Key -> Hash, zero: V, mask: nat, tags: seq<bv8>, data: seq<Row<V>>, slotOf: map<Key, nat>)
    requires Index(hash, zero, mask, tags, data, slotOf) && |slotOf| <= mask
    ensures HasFree(tags)
  {
    if !HasFree(tags) {
      ValuesSize(slotOf);
      forall i | i in UpTo(mask + 1) ensures i in slotOf.Values {
        assert Filled(tags[i]) && slotOf[data[i].key] == i;
      }
      SubsetSize(UpTo(mask + 1), slotOf.Values);
    }
  }

  ghost function UpTo(n: nat): (s: set<nat>)
    ensures |s| == n && forall i: nat :: i in s <==> i < n
  {
    if n == 0 then {} else UpTo(n - 1) + {n - 1}
  }

  lemma {:induction false} ValuesSize<A, B>(m: map<A, B>)
    ensures |m.Values| <= |m|
  {
    if m.Keys != {} {
      var k :| k in m;
      var rest := map x | x in m && x != k :: m[x];
      assert rest.Keys == m.Keys - {k};
      assert m.Values <= rest.Values + {m[k]} by {
        forall v | v in m.Values ensures v in rest.Values + {m[k]} {
          var x :| x in m && m[x] == v;
          if x != k {
            assert x in rest && rest[x] == v;
          }
        }
      }
      ValuesSize(rest);
      SubsetSize(m.Values, rest.Values + {m[k]});
    } else {
      assert m == map[];
      assert m.Values == {};
    }
  }

  /** Filling the first free slot on the path of a new key extends the index by that key and moves no other row. */
  lemma IndexInsert<V>(hash: Key -> Hash, zero: V, mask: nat, tags: seq<bv8>, data: seq<Row<V>>, slotOf: map<Key, nat>,
                       slot: nat, row: Row<V>)
    requires Index(hash, zero, mask, tags, data, slotOf) && row.key !in slotOf
    requires slot <= mask && !Filled(tags[slot]) && PathFilled(tags, mask, Home(hash, mask, row.key), slot)
    ensures Index(hash, zero, mask, tags[slot := TargetTag(hash(row.key))], data[slot := row], slotOf[row.key := slot])
    ensures PayloadOf(data[slot := row], slotOf[row.key := slot]) == PayloadOf(data, slotOf)[row.key := row.payload]
  {
    var tags', data', slotOf' := tags[slot := TargetTag(hash(row.key))], data[slot := row], slotOf[row.key := slot];
    InvertedTagIsDead(hash(row.key));
    forall i | 0 <= i <= mask ensures SlotInChain(hash, mask, TargetTag, tags', data', i) {
      assert SlotInChain(hash, mask, TargetTag, tags, data, i);
      if Filled(tags[i]) {
        PathMonotone(tags, tags', mask, Home(hash, mask, data[i].key), i);
      } else if i == slot {
        PathMonotone(tags, tags', mask, Home(hash, mask, row.key), i);
      }
    }
  }

  /** Overwriting the payload of a filled slot keeps the index. */
  lemma IndexStore<V>(hash: Key -> Hash, zero: V, mask: nat, tags: seq<bv8>, data: seq<Row<V>>, slotOf: map<Key, nat>,
                      slot: nat, payload: V)
    requires Index(hash, zero, mask, tags, data, slotOf) && slot <= mask && Filled(tags[slot])
    ensures Index(hash, zero, mask, tags, data[slot := data[slot].(payload := payload)], slotOf)
  {
    var data' := data[slot := data[slot].(payload := payload)];
    forall i | 0 <= i <= mask ensures SlotInChain(hash, mask, TargetTag, tags, data', i) {
      assert SlotInChain(hash, mask, TargetTag, tags, data, i);
    }
  }

  lemma {:induction false} BitAndSelf(a: nat)
    ensures BitAnd(a, a) == a
  {
    if a != 0 {
      BitAndSelf(a / 2);
    }
  }

  /** The size check of the constructor implies that half of the slots is a whole number. */
  lemma PowerOfTwoIsEven(n: nat)
    requires n >= 2 && BitAnd(n, n - 1) == 0
    ensures n % 2 == 0
  {
    if n % 2 == 1 {
      assert (n - 1) / 2 == n / 2;
      BitAndSelf(n / 2);
    }
  }

  lemma EmptyIndex<V>(hash: Key -> Hash, zero: V, mask: nat, tags: seq<bv8>, data: seq<Row<V>>)
    requires |tags| == |data| == mask + 1
    requires forall i :: 0 <= i <= mask ==> tags[i] == 0 && data[i].payload == zero
    ensures Index(hash, zero, mask, tags, data, map[])
  {
  }

  /** Where a search for `key` ends: the slot of the key, or the first free slot on its path. */
  ghost predicate SearchEnds<V>(hash: Key -> Hash, mask: nat, tags: seq<bv8>, data: seq<Row<V>>, slotOf: map<Key, nat>,
                                key: Key, slot: nat)
    requires |tags| == |data| == mask + 1
  {
    && slot <= mask
    && (key in slotOf ==> slot == slotOf[key])
    && (key !in slotOf ==> !Filled(tags[slot]) && PathFilled(tags, mask, Home(hash, mask, key), slot))
  }

  /** The search has passed filled slots only, and not the slot of the key. */
  ghost predicate Searching<V>(hash: Key -> Hash, mask: nat, tags: seq<bv8>, data: seq<Row<V>>, slotOf: map<Key, nat>,
                               key: Key, idx: nat)
    requires |tags| == |data| == mask + 1
  {
    && idx <= mask
    && PathFilled(tags, mask, Home(hash, mask, key), idx)
    && (key in slotOf ==> slotOf[key] <= mask)
    && (key in slotOf ==>
          Dist(Home(hash, mask, key), idx, mask) <= Dist(Home(hash, mask, key), slotOf[key], mask))
  }

  lemma SearchStep<V>(hash: Key -> Hash, zero: V, mask: nat, tags: seq<bv8>, data: seq<Row<V>>, slotOf: map<Key, nat>,
                      key: Key, idx: nat)
    requires Index(hash, zero, mask, tags, data, slotOf) && HasFree(tags)
    requires Searching(hash, mask, tags, data, slotOf, key, idx)
    requires Filled(tags[idx]) && !(tags[idx] == TargetTag(hash(key)) && data[idx].key == key)
    ensures Searching(hash, mask, tags, data, slotOf, key, Next(idx, mask))
    ensures var home := Home(hash, mask, key); Dist(home, Next(idx, mask), mask) == Dist(home, idx, mask) + 1
  {
    assert SlotInChain(hash, mask, TargetTag, tags, data, idx);
    PathAdvance(tags, mask, Home(hash, mask, key), idx);
  }

  lemma SearchStop<V>(hash: Key -> Hash, zero: V, mask: nat, tags: seq<bv8>, data: seq<Row<V>>, slotOf: map<Key, nat>,
                      key: Key, idx: nat)
    requires Index(hash, zero, mask, tags, data, slotOf)
    requires Searching(hash, mask, tags, data, slotOf, key, idx)
    requires !Filled(tags[idx]) || data[idx].key == key
    ensures SearchEnds(hash, mask, tags, data, slotOf, key, idx)
  {
    if key in slotOf {
      assert SlotInChain(hash, mask, TargetTag, tags, data, slotOf[key]);
    }
  }

  /** The payloads by key. */
  ghost function PayloadOf<V>(data: seq<Row<V>>, slotOf: map<Key, nat>): map<Key, V>
    requires forall k :: k in slotOf ==> slotOf[k] < |data|
  {
    map k | k in slotOf :: data[slotOf[k]].payload
  }

  // ---------------------------------------------------------------------------------------------
  // The table
  // ---------------------------------------------------------------------------------------------

  /** A pointer to a row: which data block of the table it leads into, counted from zero, and the slot in there. */
  datatype Pointer = Pointer(generation: nat, slot: nat)

  class HashTable<V(!new)> {
    const hash: Key -> Hash
    /** What zeroed memory reads as. */
    const zero: Row<V>
    var tags: array<bv8>
    var data: array<Row<V>>
    var modMask: nat
    var inserted: nat
    var maxFill: nat
    /** Stands for the address of the data block: the number of doublings so far. */
    var generation: nat
    ghost var slotOf: map<Key, nat>

    ghost predicate Valid()
      reads this, tags, data
    {
      && (tags as object) != (data as object)
      && Index(hash, zero.payload, modMask, tags[..], data[..], slotOf)
      && modMask + 1 == 2 * maxFill
      && inserted == |slotOf| <= maxFill
    }

    /** The abstract value: a map from keys to payloads. */
    ghost function Contents(): map<Key, V>
      reads this, tags, data
      requires Valid()
    {
      PayloadOf(data[..], slotOf)
    }

    /** The counter that decides about doublings counts the keys, and a table is never empty of room for one more. */
    lemma ContentsSize()
      requires Valid()
      ensures |Contents()| == inserted <= maxFill && 0 < maxFill
    {
      assert Contents().Keys == slotOf.Keys;
      assert |Contents()| == |Contents().Keys| && |slotOf| == |slotOf.Keys|;
    }

    static predicate ValidSize(startSlots: nat) {
      startSlots >= 2 && BitAnd(startSlots, startSlots - 1) == 0
    }

    constructor (hash: Key -> Hash, zero: Row<V>, startSlots: nat)
      requires ValidSize(startSlots)
      ensures Valid() && Contents() == map[] && inserted == 0 && maxFill == startSlots / 2
      ensures this.hash == hash && this.zero == zero && fresh(tags) && fresh(data)
    {
      this.hash := hash;
      this.zero := zero;
      this.tags := new bv8[startSlots](_ => 0);
      this.data := new Row<V>[startSlots](_ => zero);
      this.modMask := startSlots - 1;
      this.inserted := 0;
      this.maxFill := startSlots / 2;
      this.generation := 0;
      this.slotOf := map[];
      new;
      PowerOfTwoIsEven(startSlots);
      EmptyIndex(hash, zero.payload, modMask, tags[..], data[..]);
    }

    /** Sizes that the original rejects with an exception yield no table. */
    static method Create(hash: Key -> Hash, zero: Row<V>, startSlots: nat) returns (r: Option<HashTable<V>>)
      ensures r.Some? <==> ValidSize(startSlots)
      ensures r.Some? ==> fresh(r.value) && r.value.Valid() && r.value.Contents() == map[] && r.value.hash == hash
    {
      if startSlots < 2 || BitAnd(startSlots, startSlots - 1) != 0 {
        return None;
      }
      var t := new HashTable(hash, zero, startSlots);
      return Some(t);
    }

    /** A current pointer: it leads to the slot that holds the key now. */
    ghost predicate Aimed(ptr: Pointer, key: Key)
      reads this
    {
      key in slotOf && ptr == Pointer(generation, slotOf[key])
    }

    /** Finds the slot of the key, or the first free slot on its path. */
    method FindSlotOrEmpty(h: Hash, key: Key) returns (slot: nat)
      requires Valid() && h == hash(key)
      ensures SearchEnds(hash, modMask, tags[..], data[..], slotOf, key, slot)
    {
      var idx: nat := Home(hash, modMask, key);
      ghost var ts, ds := tags[..], data[..];
      IndexHasFree(hash, zero.payload, modMask, ts, ds, slotOf);
      while Filled(tags[idx]) && !(tags[idx] == TargetTag(h) && data[idx].key == key)
        invariant Searching(hash, modMask, ts, ds, slotOf, key, idx)
        decreases modMask + 1 - Dist(Home(hash, modMask, key), idx, modMask)
      {
        assert ts[idx] == tags[idx] && ds[idx] == data[idx];
        SearchStep(hash, zero.payload, modMask, ts, ds, slotOf, key, idx);
        idx := Next(idx, modMask);
      }
      assert ts[idx] == tags[idx] && ds[idx] == data[idx];
      SearchStop(hash, zero.payload, modMask, ts, ds, slotOf, key, idx);
      slot := idx;
    }

    /** A pointer to the row of the key, or null if the group does not exist. */
    method Lookup(key: Key) returns (r: Option<Pointer>)
      requires Valid()
      ensures r.Some? <==> key in Contents()
      ensures r.Some? ==> Aimed(r.value, key) && r.value.slot < data.Length && data[r.value.slot] == Row(key, Contents()[key])
    {
      var slot := FindSlotOrEmpty(hash(key), key);
      return if Filled(tags[slot]) then Some(Pointer(generation, slot)) else None;
    }

    /**
     * Creates the group if it does not exist. The table doubles first whenever it is half full, even if the key exists;
     * `grew` says so. Without growth all pointers handed out earlier stay current.
     */
    method LookupOrInsert(key: Key) returns (ptr: Pointer, isNew: bool, grew: bool)
      requires Valid()
      modifies this, tags, data
      ensures Valid()
      ensures isNew == (key !in old(Contents()))
      ensures Contents() == if isNew then old(Contents())[key := zero.payload] else old(Contents())
      ensures Aimed(ptr, key)
      ensures grew == (old(inserted) >= old(maxFill))
      ensures inserted == old(inserted) + if isNew then 1 else 0
      ensures maxFill == if grew then 2 * old(maxFill) else old(maxFill)
      ensures generation == old(generation) + if grew then 1 else 0
      ensures !grew ==> tags == old(tags) && data == old(data)
      ensures !grew ==> forall k :: k in old(slotOf) ==> k in slotOf && slotOf[k] == old(slotOf[k])
      ensures grew ==> fresh(tags) && fresh(data)
    {
      grew := ReserveSlot();
      var slot := FindSlotOrEmpty(hash(key), key);
      ghost var ts, ds := tags[..], data[..];
      assert ts[slot] == tags[slot] && SlotInChain(hash, modMask, TargetTag, ts, ds, slot);
      isNew := tags[slot] == 0;
      if isNew {
        Claim(slot, key);
      }
      ptr := Pointer(generation, slot);
    }

    /** Tags a free slot on the path of an absent key and copies the key in front of the zero payload. */
    method Claim(slot: nat, key: Key)
      requires Valid() && inserted < maxFill && key !in slotOf
      requires SearchEnds(hash, modMask, tags[..], data[..], slotOf, key, slot)
      modifies this`inserted, this`slotOf, tags, data
      ensures Valid() && Contents() == old(Contents())[key := zero.payload]
      ensures inserted == old(inserted) + 1 && slotOf == old(slotOf)[key := slot]
    {
      ghost var ts, ds := tags[..], data[..];
      assert ts[slot] == tags[slot] && ds[slot] == data[slot];
      IndexInsert(hash, zero.payload, modMask, ts, ds, slotOf, slot, Row(key, zero.payload));
      tags[slot] := TargetTag(hash(key));
      data[slot] := data[slot].(key := key);
      inserted := inserted + 1;
      slotOf := slotOf[key := slot];
      assert tags[..] == ts[slot := TargetTag(hash(key))] && data[..] == ds[slot := Row(key, zero.payload)];
    }

    /** Skips all filled slots without comparing keys; for an absent key that is where its search ends. */
    method FindFirstEmpty(key: Key) returns (slot: nat)
      requires Valid() && key !in slotOf
      ensures SearchEnds(hash, modMask, tags[..], data[..], slotOf, key, slot)
    {
      ghost var ts := tags[..];
      IndexHasFree(hash, zero.payload, modMask, ts, data[..], slotOf);
      slot := FirstEmptySlot(hash, tags, ts, key);
    }

    /** Inserts a key that the caller knows to be absent. */
    method Insert(key: Key) returns (ptr: Pointer, grew: bool)
      requires Valid() && key !in Contents()
      modifies this, tags, data
      ensures Valid() && Contents() == old(Contents())[key := zero.payload]
      ensures Aimed(ptr, key)
      ensures inserted == old(inserted) + 1
      ensures grew == (old(inserted) >= old(maxFill))
      ensures grew ==> fresh(tags) && fresh(data)
      ensures !grew ==> tags == old(tags) && data == old(data)
    {
      grew := ReserveSlot();
      var slot := FindFirstEmpty(key);
      Claim(slot, key);
      ptr := Pointer(generation, slot);
    }

    /** Doubles a half-full table: every row moves with its tag and payload, and the abstract value stays the same. */
    method ReserveSlot() returns (grew: bool)
      requires Valid()
      modifies this
      ensures Valid() && Contents() == old(Contents()) && inserted == old(inserted) && inserted < maxFill
      ensures grew == (old(inserted) >= old(maxFill))
      ensures maxFill == if grew then 2 * old(maxFill) else old(maxFill)
      ensures generation == old(generation) + if grew then 1 else 0
      ensures !grew ==> tags == old(tags) && data == old(data) && slotOf == old(slotOf)
      ensures grew ==> fresh(tags) && fresh(data)
    {
      if inserted < maxFill {
        return false;
      }
      var newTags, newData, moved := Rehash(hash, zero, tags, data, slotOf);
      AllMoved(slotOf, data[..], newData[..], moved);
      Install(newTags, newData, moved);
      grew := true;
    }

    /** Swaps the arrays of the doubled table in. */
    method Install(newTags: array<bv8>, newData: array<Row<V>>, ghost newSlotOf: map<Key, nat>)
      requires (newTags as object) != (newData as object) && newTags.Length == 2 * (modMask + 1)
      requires modMask + 1 == 2 * maxFill && inserted == |newSlotOf| <= maxFill
      requires Index(hash, zero.payload, 2 * modMask + 1, newTags[..], newData[..], newSlotOf)
      modifies this
      ensures Valid() && Contents() == PayloadOf(newData[..], newSlotOf)
      ensures inserted == old(inserted) && maxFill == 2 * old(maxFill) && tags == newTags && data == newData
      ensures generation == old(generation) + 1
    {
      tags, data, slotOf := newTags, newData, newSlotOf;
      modMask := 2 * (modMask + 1) - 1;
      maxFill := (modMask + 1) / 2;
      generation := generation + 1;
      assert modMask == 2 * old(modMask) + 1 && maxFill == 2 * old(maxFill);
      assert Index(hash, zero.payload, modMask, tags[..], data[..], slotOf);
    }

    /**
     * Adds a delta to the payload behind a pointer. Only a pointer into the current data block changes the table, in the
     * group of its key; a store through a stale pointer goes to memory that the table no longer reads.
     */
    method AddThrough(ptr: Pointer, ghost key: Key, delta: V, add: (V, V) -> V)
      requires Valid()
      requires ptr.generation == generation ==> Aimed(ptr, key)
      modifies data
      ensures Valid()
      ensures Contents() == var m := old(Contents()); if ptr.generation == generation then m[key := add(m[key], delta)] else m
    {
      if ptr.generation == generation {
        ghost var ds := data[..];
        data[ptr.slot] := data[ptr.slot].(payload := add(data[ptr.slot].payload, delta));
        ghost var now := data[ptr.slot].payload;
        IndexStore(hash, zero.payload, modMask, tags[..], ds, slotOf, ptr.slot, now);
        assert data[..] == ds[ptr.slot := ds[ptr.slot].(payload := now)];
      }
    }
  }

  // ---------------------------------------------------------------------------------------------
  // Any sequence of requests
  // ---------------------------------------------------------------------------------------------

  /** Requests and replies: the payload that was found, or whether the key was new. */
  datatype Request = FindKey(key: Key) | FindOrAddKey(key: Key) | AddKey(key: Key)
  datatype Reply<V> = Found(payload: Option<V>) | Created(isNew: bool)

  /** What a mathematical map replies, and what it contains then. */
  function Answer<V>(m: map<Key, V>, r: Request): Reply<V> {
    match r
    case FindKey(k) => Found(if k in m then Some(m[k]) else None)
    case FindOrAddKey(k) => Created(k !in m)
    case AddKey(k) => Created(true)
  }

  function After<V>(m: map<Key, V>, zero: V, r: Request): map<Key, V> {
    if r.FindKey? || r.key in m then m else m[r.key := zero]
  }

  function Served<V>(m: map<Key, V>, zero: V, rs: seq<Request>): map<Key, V> {
    if rs == [] then m else After(Served(m, zero, rs[..|rs| - 1]), zero, rs[|rs| - 1])
  }

  /** The replies of a map to a sequence of requests. `AddKey` is only allowed for absent keys. */
  function Replies<V>(m: map<Key, V>, zero: V, rs: seq<Request>): seq<Reply<V>> {
    if rs == [] then []
    else
      var init := rs[..|rs| - 1];
      Replies(m, zero, init) + [Answer(Served(m, zero, init), rs[|rs| - 1])]
  }

  ghost predicate Allowed<V>(m: map<Key, V>, zero: V, rs: seq<Request>) {
    forall i :: 0 <= i < |rs| ==> AllowedAt(m, zero, rs, i)
  }

  ghost predicate AllowedAt<V>(m: map<Key, V>, zero: V, rs: seq<Request>, i: nat)
    requires i < |rs|
  {
    rs[i].AddKey? ==> rs[i].key !in Served(m, zero, rs[..i])
  }

  method Serve<V(!new)>(table: HashTable<V>, r: Request) returns (reply: Reply<V>)
    requires table.Valid() && (r.AddKey? ==> r.key !in table.Contents())
    modifies table, table.tags, table.data
    ensures table.Valid()
    ensures reply == Answer(old(table.Contents()), r)
    ensures table.Contents() == After(old(table.Contents()), table.zero.payload, r)
    ensures table.tags == old(table.tags) || fresh(table.tags)
    ensures table.data == old(table.data) || fresh(table.data)
  {
    match r
    case FindKey(k) =>
      var found := table.Lookup(k);
      reply := Found(if found.Some? then Some(table.data[found.value.slot].payload) else None);
    case FindOrAddKey(k) =>
      var ptr, isNew, grew := table.LookupOrInsert(k);
      reply := Created(isNew);
    case AddKey(k) =>
      var ptr, grew := table.Insert(k);
      reply := Created(true);
  }

  /**
   * Main theorem: for every sequence of requests, doublings included, the table replies like a map and contains what the
   * map contains.
   */
  method ServeAll<V(!new)>(table: HashTable<V>, rs: seq<Request>) returns (replies: seq<Reply<V>>)
    requires table.Valid() && Allowed(table.Contents(), table.zero.payload, rs)
    modifies table, table.tags, table.data
    ensures table.Valid()
    ensures replies == Replies(old(table.Contents()), table.zero.payload, rs)
    ensures table.Contents() == Served(old(table.Contents()), table.zero.payload, rs)
  {
    ghost var m, zero := table.Contents(), table.zero.payload;
    replies := [];
    for i := 0 to |rs|
      invariant table.Valid()
      invariant table.Contents() == Served(m, zero, rs[..i]) && replies == Replies(m, zero, rs[..i])
      invariant table.tags == old(table.tags) || fresh(table.tags)
      invariant table.data == old(table.data) || fresh(table.data)
    {
      assert AllowedAt(m, zero, rs, i);
      var reply := Serve(table, rs[i]);
      OneMoreRequest(m, zero, rs, i);
      replies := replies + [reply];
    }
    assert rs[..|rs|] == rs;
  }

  lemma OneMoreRequest<V>(m: map<Key, V>, zero: V, rs: seq<Request>, i: nat)
    requires i < |rs|
    ensures Served(m, zero, rs[..i + 1]) == After(Served(m, zero, rs[..i]), zero, rs[i])
    ensures Replies(m, zero, rs[..i + 1]) == Replies(m, zero, rs[..i]) + [Answer(Served(m, zero, rs[..i]), rs[i])]
  {
    assert rs[..i + 1][..i] == rs[..i];
  }

  /** Copies every row into a table of twice the size. */
  method Rehash<V>(hash: Key -> Hash, zero: Row<V>, tags: array<bv8>, data: array<Row<V>>, ghost slotOf: map<Key, nat>)
    returns (newTags: array<bv8>, newData: array<Row<V>>, ghost moved: map<Key, nat>)
    requires tags.Length == data.Length >= 1
    requires Index(hash, zero.payload, tags.Length - 1, tags[..], data[..], slotOf) && |slotOf| < tags.Length
    ensures fresh(newTags) && fresh(newData) && (newTags as object) != (newData as object)
    ensures newTags.Length == newData.Length == 2 * tags.Length
    ensures Index(hash, zero.payload, 2 * tags.Length - 1, newTags[..], newData[..], moved)
    ensures Moved(data[..], slotOf, newData[..], moved, tags.Length)
  {
    ghost var mask, ts, ds := tags.Length - 1, tags[..], data[..];
    var newMask := 2 * tags.Length - 1;
    newTags := new bv8[newMask + 1](_ => 0);
    newData := new Row<V>[newMask + 1](_ => zero);
    moved := map[];
    ghost var nt, nd := newTags[..], newData[..];
    EmptyIndex(hash, zero.payload, newMask, nt, nd);
    for idx := 0 to tags.Length
      invariant tags[..] == ts && data[..] == ds
      invariant newTags[..] == nt && newData[..] == nd
      invariant Index(hash, zero.payload, newMask, nt, nd, moved)
      invariant Moved(ds, slotOf, nd, moved, idx)
    {
      assert ts[idx] == tags[idx] && ds[idx] == data[idx];
      assert SlotInChain(hash, mask, TargetTag, ts, ds, idx);
      if tags[idx] != 0 {
        MovedSize(hash, zero.payload, mask, ts, ds, slotOf, nd, moved, idx);
        var slot := Place(hash, zero.payload, newTags, newData, newMask, tags[idx], data[idx], moved);
        MovedStep(hash, zero.payload, mask, ts, ds, slotOf, nd, moved, idx, slot);
        nt, nd, moved := newTags[..], newData[..], moved[ds[idx].key := slot];
      } else {
        MovedSkip(hash, zero.payload, mask, ts, ds, slotOf, nd, moved, idx);
      }
    }
  }

  /** After the last slot the new table has the same keys and payloads. */
  lemma AllMoved<V>(slotOf: map<Key, nat>, data: seq<Row<V>>, newData: seq<Row<V>>, moved: map<Key, nat>)
    requires Moved(data, slotOf, newData, moved, |data|)
    requires forall k :: k in slotOf ==> slotOf[k] < |data|
    ensures |moved| == |slotOf|
    ensures PayloadOf(newData, moved) == PayloadOf(data, slotOf)
  {
    assert moved.Keys == slotOf.Keys;
    assert |moved| == |moved.Keys| && |slotOf| == |slotOf.Keys|;
  }

  /** The rows of the first `n` old slots have been moved, complete with their payloads. */
  ghost predicate Moved<V>(data: seq<Row<V>>, slotOf: map<Key, nat>, newData: seq<Row<V>>,
                           moved: map<Key, nat>, n: nat)
  {
    && (forall k :: k in moved <==> k in slotOf && slotOf[k] < n)
    && (forall k :: k in moved ==> moved[k] < |newData| && slotOf[k] < |data| && newData[moved[k]] == data[slotOf[k]])
  }

  /** While a row still has to move, fewer keys have moved than the old table has. */
  lemma MovedSize<V>(hash: Key -> Hash, zero: V, mask: nat, tags: seq<bv8>, data: seq<Row<V>>, slotOf: map<Key, nat>,
                     newData: seq<Row<V>>, moved: map<Key, nat>, n: nat)
    requires Index(hash, zero, mask, tags, data, slotOf) && n <= mask && Filled(tags[n])
    requires Moved(data, slotOf, newData, moved, n)
    ensures data[n].key !in moved && |moved| < |slotOf|
  {
    assert moved.Keys <= slotOf.Keys - {data[n].key};
    SubsetSize(moved.Keys, slotOf.Keys - {data[n].key});
    assert |moved| == |moved.Keys| && |slotOf| == |slotOf.Keys|;
  }

  lemma MovedStep<V>(hash: Key -> Hash, zero: V, mask: nat, tags: seq<bv8>, data: seq<Row<V>>, slotOf: map<Key, nat>,
                     newData: seq<Row<V>>, moved: map<Key, nat>, n: nat, slot: nat)
    requires Index(hash, zero, mask, tags, data, slotOf) && n <= mask && Filled(tags[n])
    requires Moved(data, slotOf, newData, moved, n) && slot < |newData|
    requires forall k :: k in moved ==> moved[k] != slot
    ensures Moved(data, slotOf, newData[slot := data[n]], moved[data[n].key := slot], n + 1)
  {
  }

  lemma MovedSkip<V>(hash: Key -> Hash, zero: V, mask: nat, tags: seq<bv8>, data: seq<Row<V>>, slotOf: map<Key, nat>,
                     newData: seq<Row<V>>, moved: map<Key, nat>, n: nat)
    requires Index(hash, zero, mask, tags, data, slotOf) && n <= mask && !Filled(tags[n])
    requires Moved(data, slotOf, newData, moved, n)
    ensures Moved(data, slotOf, newData, moved, n + 1)
  {
  }

  /** Copies a row with its tag into the first free slot on its path. */
  method Place<V>(hash: Key -> Hash, ghost zero: V, tags: array<bv8>, data: array<Row<V>>, mask: nat, tag: bv8, row: Row<V>,
                  ghost slotOf: map<Key, nat>) returns (slot: nat)
    requires tags.Length == mask + 1 && (tags as object) != (data as object)
    requires Index(hash, zero, mask, tags[..], data[..], slotOf) && |slotOf| <= mask
    requires row.key !in slotOf && tag == TargetTag(hash(row.key))
    modifies tags, data
    ensures Index(hash, zero, mask, tags[..], data[..], slotOf[row.key := slot])
    ensures slot < data.Length && data[..] == old(data[..])[slot := row]
    ensures forall k :: k in slotOf ==> slotOf[k] != slot
  {
    ghost var ts, ds := tags[..], data[..];
    IndexHasFree(hash, zero, mask, ts, ds, slotOf);
    slot := FirstEmptySlot(hash, tags, ts, row.key);
    IndexInsert(hash, zero, mask, ts, ds, slotOf, slot, row);
    tags[slot] := tag;
    data[slot] := row;
    assert tags[..] == ts[slot := tag] && data[..] == ds[slot := row];
  }

  /** The probe loop of inserts: the first free slot on the path of a key. */
  method FirstEmptySlot(hash: Key -> Hash, tags: array<bv8>, ghost contents: seq<bv8>, key: Key) returns (slot: nat)
    requires tags.Length >= 1 && contents == tags[..] && HasFree(contents)
    ensures slot < tags.Length && !Filled(contents[slot])
    ensures PathFilled(contents, tags.Length - 1, Home(hash, tags.Length - 1, key), slot)
  {
    var mask := tags.Length - 1;
    slot := Home(hash, mask, key);
    ghost var home := slot;
    while Filled(tags[slot])
      invariant slot <= mask && PathFilled(contents, mask, home, slot)
      decreases mask + 1 - Dist(home, slot, mask)
    {
      assert contents[slot] == tags[slot];
      PathAdvance(contents, mask, home, slot);
      slot := Next(slot, mask);
    }
    assert contents[slot] == tags[slot];
  }

  // ---------------------------------------------------------------------------------------------
  // Iterators over raw slots. They only read the tags. A null data pointer is None; the index stays where it was.
  // ---------------------------------------------------------------------------------------------

  method AdvanceNoWrap(tags: seq<bv8>, it: nat) returns (ptr: Option<nat>, idx: nat)
    requires it < |tags|
    ensures if it == |tags| - 1 then ptr == None && idx == it else ptr == Some(it + 1) && idx == it + 1
  {
    if it == |tags| - 1 {
      return None, it;
    } else {
      return Some(it + 1), it + 1;
    }
  }

  /** The iterator is exhausted, or it rests on the first filled slot at or behind `from`. */
  ghost predicate RestsAt(tags: seq<bv8>, from: nat, ptr: Option<nat>) {
    match ptr
    case None => forall i :: from <= i < |tags| ==> !Filled(tags[i])
    case Some(i) => from <= i < |tags| && Filled(tags[i]) && forall j :: from <= j < i ==> !Filled(tags[j])
  }

  method SkipToFilled(tags: seq<bv8>, start: nat) returns (ptr: Option<nat>, idx: nat)
    requires start < |tags|
    ensures RestsAt(tags, start, ptr)
    ensures idx < |tags| && (ptr.Some? ==> ptr.value == idx)
  {
    ptr, idx := Some(start), start;
    while !Filled(tags[idx]) && ptr.Some?
      invariant start <= idx < |tags|
      invariant forall j :: start <= j < idx ==> !Filled(tags[j])
      invariant if ptr.Some? then ptr.value == idx else idx == |tags| - 1 && !Filled(tags[idx])
      decreases |tags| - idx, ptr.Some?
    {
      ptr, idx := AdvanceNoWrap(tags, idx);
    }
  }

  method IteratorStart(tags: seq<bv8>) returns (ptr: Option<nat>, idx: nat)
    requires |tags| > 0
    ensures RestsAt(tags, 0, ptr)
    ensures idx < |tags| && (ptr.Some? ==> ptr.value == idx)
  {
    ptr, idx := SkipToFilled(tags, 0);
  }

  method IteratorAdvance(tags: seq<bv8>, it: nat) returns (ptr: Option<nat>, idx: nat)
    requires it < |tags|
    ensures RestsAt(tags, it + 1, ptr)
    ensures idx < |tags| && (ptr.Some? ==> ptr.value == idx)
  {
    ptr, idx := AdvanceNoWrap(tags, it);
    if ptr.Some? {
      ptr, idx := SkipToFilled(tags, idx);
    }
  }
}
