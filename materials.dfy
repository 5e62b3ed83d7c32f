/**
 * src/core/materials.js: the shared materials, created lazily. The table of
 * configured materials is fixed; a lookup of a configured name creates its
 * material once and caches it, a lookup of any other name finds nothing.
 */
module Materials {
  import opened Wrappers

  /** The two three.js material classes the table uses. */
  datatype MaterialType = MeshBasicMaterial | MeshLambertMaterial

  /** A table entry: the class, the colour and whether both faces are drawn. */
  datatype MaterialSpec = MaterialSpec(materialType: MaterialType, color: int, doubleSided: bool)

  function Basic(color: int): MaterialSpec { MaterialSpec(MeshBasicMaterial, color, false) }
  function Lambert(color: int): MaterialSpec { MaterialSpec(MeshLambertMaterial, color, false) }

  /** The configured materials, by name. */
  const MaterialConfig: map<string, MaterialSpec> := map[
    "rail" := Basic(0x808080),
    "sleeper" := Basic(0x8B4513),
    "engine" := Basic(0x800000),
    "cabin" := Basic(0x556B2F),
    "wheel" := Basic(0x000000),
    "smokestack" := Basic(0x333333),
    "hitch" := Basic(0x333333),
    "compartment" := Basic(0x8B4513),
    "compartmentRoof" := Basic(0x3b2e1e),
    "connector" := Basic(0x222222),
    "windows" := Basic(0xADD8E6),
    "chimneyCap" := Basic(0x777777),
    "cowcatcher" := Basic(0x555555),
    "boiler" := Basic(0x990000),
    "bell" := Basic(0xFFD700),
    "railings" := Basic(0x444444),
    "metalTrim" := Basic(0xC0C0C0),
    "grass" := Lambert(0x4CAF50),
    "treeTrunk" := Lambert(0x8B4513),
    "treeLeaves" := Lambert(0x228B22),
    "tunnel" := MaterialSpec(MeshLambertMaterial, 0x606060, true)
  ]

  /** The names cached after one lookup of `name`: it joins them exactly when it is configured. */
  function Lookup(cached: set<string>, name: string): (r: set<string>)
    ensures cached <= r
    ensures r <= cached + {name}
    ensures name in r <==> name in cached || name in MaterialConfig
  {
    if name in cached || name !in MaterialConfig then cached else cached + {name}
  }

  /** The names cached after a run of lookups. */
  function LookupAll(cached: set<string>, names: seq<string>): set<string>
    decreases |names|
  {
    if |names| == 0 then cached else LookupAll(Lookup(cached, names[0]), names[1..])
  }

  /** Whatever is looked up, only configured names are ever cached. */
  lemma {:induction false} OnlyConfiguredCached(cached: set<string>, names: seq<string>)
    requires cached <= MaterialConfig.Keys
    ensures LookupAll(cached, names) <= MaterialConfig.Keys
    ensures cached <= LookupAll(cached, names)
    decreases |names|
  {
    if |names| > 0 {
      OnlyConfiguredCached(Lookup(cached, names[0]), names[1..]);
    }
  }

  /** A run of lookups caches exactly the configured names among them. */
  lemma {:induction false} LookupAllCaches(cached: set<string>, names: seq<string>, name: string)
    ensures name in LookupAll(cached, names) <==>
      name in cached || (name in MaterialConfig && name in names)
    decreases |names|
  {
    if |names| > 0 {
      LookupAllCaches(Lookup(cached, names[0]), names[1..], name);
      assert name in names <==> name == names[0] || name in names[1..];
    }
  }

  /** A material made by `new THREE[config.type](config.props)`. */
  class Material {
    const spec: MaterialSpec
    var disposed: bool

    constructor (spec: MaterialSpec)
      ensures this.spec == spec && !disposed
    {
      this.spec := spec;
      disposed := false;
    }

    method Dispose()
      modifies this
      ensures disposed
    {
      disposed := true;
    }
  }

  /** `MaterialManager`: the cache `_materials` and the flag `_initialized`. */
  class MaterialManager {
    var materials: map<string, Material>
    var initialized: bool

    /**
     * Only configured names are cached, each with a live material built
     * from its own table entry.
     */
    ghost predicate Valid()
      reads this, materials.Values
    {
      && materials.Keys <= MaterialConfig.Keys
      && (forall name :: name in materials ==> materials[name].spec == MaterialConfig[name] && !materials[name].disposed)
    }

    constructor ()
      ensures Valid()
      ensures materials == map[] && !initialized
    {
      materials := map[];
      initialized := false;
    }

    /** The `materials` getter: sets up the lookup once; the flag is never reset. */
    method Materials()
      modifies this
      ensures initialized
      ensures materials == old(materials)
    {
      if !initialized {
        initialized := true;
      }
    }

    /**
     * The lookup `materials[name]`: the cached material, or for a configured
     * name a new one that is cached; for any other name nothing, and nothing
     * is cached.
     */
    method Get(name: string) returns (r: Option<Material>)
      requires Valid() && initialized
      modifies this
      ensures Valid() && initialized
      ensures materials.Keys == Lookup(old(materials).Keys, name)
      ensures forall n :: n in old(materials) ==> materials[n] == old(materials)[n]
      ensures name in old(materials) ==> r == Some(old(materials)[name])
      ensures name !in old(materials) && name in MaterialConfig ==>
        r.Some? && fresh(r.value) && r.value.spec == MaterialConfig[name] && materials == old(materials)[name := r.value]
      ensures name !in MaterialConfig ==> r.None?
    {
      if name !in materials {
        if name in MaterialConfig {
          var material := new Material(MaterialConfig[name]);
          materials := materials[name := material];
        }
      }
      r := if name in materials then Some(materials[name]) else None;
    }

    /** `dispose()`: disposes every cached material and empties the cache. */
    method Dispose()
      requires Valid()
      modifies this, materials.Values
      ensures Valid()
      ensures materials == map[] && initialized == old(initialized)
      ensures forall m :: m in old(materials.Values) ==> m.disposed
    {
      var remaining := materials.Values;
      while remaining != {}
        invariant materials == old(materials) && initialized == old(initialized)
        invariant remaining <= materials.Values
        invariant forall m :: m in materials.Values - remaining ==> m.disposed
        decreases remaining
      {
        var m :| m in remaining;
        m.Dispose();
        remaining := remaining - {m};
      }
      materials := map[];
    }
  }
}
