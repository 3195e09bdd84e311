/** What concurrent probes of a finished table have in common. */
module ProbePhase {
  import opened Hashing

  /** The table as the build phase left it. The data array no longer changes. */
  datatype Config<+V> = Config(hash: Key -> Hash, mask: nat, built: seq<bv8>, data: seq<Row<V>>)

  function HomeOf<V>(c: Config<V>, k: Key): (home: nat)
    ensures home <= c.mask
  {
    Home(c.hash, c.mask, k)
  }

  /** A probe: the key it looks for, and where its program stands. */
  datatype Probe<Pc> = Probe(key: Key, pc: Pc)

  function ProbeKeys<Pc>(probes: seq<Probe<Pc>>): seq<Key> {
    seq(|probes|, p requires 0 <= p < |probes| => probes[p].key)
  }

  ghost predicate SameKeys<Pc>(a: seq<Probe<Pc>>, b: seq<Probe<Pc>>) {
    |a| == |b| && forall q :: 0 <= q < |a| ==> b[q].key == a[q].key
  }
}
