/**
 * src/core/geometry-pool.js: a cache of shared geometries, keyed by the
 * geometry type and its constructor arguments, with a reference count per
 * key. The last release of a key disposes its geometry and forgets the key.
 */
module GeometryPool {

  /**
   * The cache key, `${type}_${JSON.stringify(args)}`: it is built from the
   * type and the arguments alone, so equal requests always meet the same entry.
   */
  datatype GeometryKey = GeometryKey(geometryType: string, args: seq<real>)

  /** A geometry made by `new THREE[type](...args)`: only its key and disposal are modelled. */
  class Geometry {
    const key: GeometryKey
    var disposed: bool

    constructor (key: GeometryKey)
      ensures this.key == key && !disposed
    {
      this.key := key;
      disposed := false;
    }

    method Dispose()
      modifies this
      ensures disposed
    {
      disposed := true;
    }
  }

  /** The reference counts after one `getGeometry` of `key`. */
  function Acquire<K>(counts: map<K, int>, key: K): (r: map<K, int>)
    ensures r.Keys == counts.Keys + {key}
    ensures r[key] == (if key in counts then counts[key] + 1 else 1)
    ensures forall k :: k in counts && k != key ==> r[k] == counts[k]
  {
    if key in counts then counts[key := counts[key] + 1] else counts[key := 1]
  }

  /** The reference counts after one `releaseGeometry` of `key`. */
  function Release<K>(counts: map<K, int>, key: K): (r: map<K, int>)
    ensures key !in counts ==> r == counts
    ensures key in counts && counts[key] <= 1 ==> r == counts - {key}
    ensures key in counts && counts[key] > 1 ==> r == counts[key := counts[key] - 1]
  {
    if key !in counts then counts
    else
      var count := counts[key] - 1;
      if count <= 0 then counts - {key} else counts[key := count]
  }

  /** Every stored count is at least one. */
  predicate Positive<K>(counts: map<K, int>) {
    forall k :: k in counts ==> counts[k] >= 1
  }

  /** Getting a key keeps all counts positive. */
  lemma AcquireKeepsPositive<K>(counts: map<K, int>, key: K)
    requires Positive(counts)
    ensures Positive(Acquire(counts, key))
  {
  }

  /** Releasing a key keeps all counts positive: a count that would reach 0 is removed. */
  lemma ReleaseKeepsPositive<K>(counts: map<K, int>, key: K)
    requires Positive(counts)
    ensures Positive(Release(counts, key))
  {
  }

  /** A release undoes a get. */
  lemma ReleaseUndoesAcquire<K>(counts: map<K, int>, key: K)
    requires Positive(counts)
    ensures Release(Acquire(counts, key), key) == counts
  {
    if key !in counts {
      assert Acquire(counts, key) - {key} == counts;
    } else {
      assert Acquire(counts, key)[key := counts[key]] == counts;
    }
  }

  /** The counts after `n` gets of `key`. */
  function AcquireN<K>(counts: map<K, int>, key: K, n: nat): map<K, int> {
    if n == 0 then counts else Acquire(AcquireN(counts, key, n - 1), key)
  }

  /** The counts after `n` releases of `key`. */
  function ReleaseN<K>(counts: map<K, int>, key: K, n: nat): map<K, int> {
    if n == 0 then counts else ReleaseN(Release(counts, key), key, n - 1)
  }

  lemma {:induction false} AcquireNKeepsPositive<K>(counts: map<K, int>, key: K, n: nat)
    requires Positive(counts)
    ensures Positive(AcquireN(counts, key, n))
  {
    if n > 0 {
      AcquireNKeepsPositive(counts, key, n - 1);
      AcquireKeepsPositive(AcquireN(counts, key, n - 1), key);
    }
  }

  /**
   * `n` gets of a key followed by `n` releases of it give back the counts
   * from before: a key that was absent is absent again, and no other key is
   * touched.
   */
  lemma {:induction false} ReleaseNUndoesAcquireN<K>(counts: map<K, int>, key: K, n: nat)
    requires Positive(counts)
    ensures ReleaseN(AcquireN(counts, key, n), key, n) == counts
  {
    if n > 0 {
      var before := AcquireN(counts, key, n - 1);
      AcquireNKeepsPositive(counts, key, n - 1);
      ReleaseUndoesAcquire(before, key);
      assert ReleaseN(AcquireN(counts, key, n), key, n) == ReleaseN(before, key, n - 1);
      ReleaseNUndoesAcquireN(counts, key, n - 1);
    }
  }

  /** The pool: `geometries` and `refCounts`, two maps over the same keys. */
  class Pool {
    var geometries: map<GeometryKey, Geometry>
    var refCounts: map<GeometryKey, int>

    /**
     * Both maps have the same keys, every count is at least one, and every
     * stored geometry was made for its key and is not disposed.
     */
    ghost predicate Valid()
      reads this, geometries.Values
    {
      && geometries.Keys == refCounts.Keys
      && Positive(refCounts)
      && (forall k :: k in geometries ==> geometries[k].key == k && !geometries[k].disposed)
    }

    constructor ()
      ensures Valid()
      ensures geometries == map[] && refCounts == map[]
    {
      geometries := map[];
      refCounts := map[];
    }

    /**
     * `getGeometry(type, ...args)`: the stored geometry for the key with its
     * count raised by one, or a new geometry stored with count 1.
     */
    method GetGeometry(geometryType: string, args: seq<real>) returns (g: Geometry)
      requires Valid()
      modifies this
      ensures Valid()
      ensures g.key == GeometryKey(geometryType, args)
      ensures refCounts == Acquire(old(refCounts), GeometryKey(geometryType, args))
      ensures var key := GeometryKey(geometryType, args);
        if key in old(geometries) then g == old(geometries)[key] && geometries == old(geometries)
        else fresh(g) && geometries == old(geometries)[key := g]
    {
      var key := GeometryKey(geometryType, args);
      if key in geometries {
        refCounts := refCounts[key := refCounts[key] + 1];
        return geometries[key];
      }
      g := new Geometry(key);
      geometries := geometries[key := g];
      refCounts := refCounts[key := 1];
    }

    /**
     * `releaseGeometry(type, ...args)`: lowers the key's count; at 0 the
     * geometry is disposed and the key leaves both maps. An unknown key
     * changes nothing.
     */
    method ReleaseGeometry(geometryType: string, args: seq<real>)
      requires Valid()
      modifies this, geometries.Values
      ensures Valid()
      ensures refCounts == Release(old(refCounts), GeometryKey(geometryType, args))
      ensures var key := GeometryKey(geometryType, args);
        && geometries.Keys == refCounts.Keys
        && (forall k :: k in geometries ==> geometries[k] == old(geometries)[k])
        && (key in old(geometries) && key !in geometries ==> old(geometries)[key].disposed)
      ensures forall g :: g in old(geometries.Values) && g in geometries.Values ==> unchanged(g)
    {
      var key := GeometryKey(geometryType, args);
      if key in refCounts {
        var count := refCounts[key] - 1;
        refCounts := refCounts[key := count];
        if count <= 0 {
          if key in geometries {
            var geometry := geometries[key];
            geometry.Dispose();
          }
          geometries := geometries - {key};
          refCounts := refCounts - {key};
        }
      }
    }

    /** `dispose()`: disposes every stored geometry, then empties both maps. */
    method Dispose()
      requires Valid()
      modifies this, geometries.Values
      ensures Valid()
      ensures geometries == map[] && refCounts == map[]
      ensures forall g :: g in old(geometries.Values) ==> g.disposed
    {
      var remaining := geometries.Values;
      while remaining != {}
        invariant geometries == old(geometries) && refCounts == old(refCounts)
        invariant remaining <= geometries.Values
        invariant forall g :: g in geometries.Values - remaining ==> g.disposed
        decreases remaining
      {
        var g :| g in remaining;
        g.Dispose();
        remaining := remaining - {g};
      }
      geometries := map[];
      refCounts := map[];
    }
  }
}
