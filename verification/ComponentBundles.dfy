/** Same-frame component bundles: connected components of the geometric "can bundle" relation. */
module ComponentBundles {
  import opened Prelude
  import DisjointSets

  datatype Geometry = Geometry(valid: bool, x05: real, x95: real, y05: real, y95: real, minZ: real, maxZ: real)

  datatype Config = Config(maximumLongSide: real, maximumShortSide: real, maximumVerticalGap: real)

  /** Footprints overlap with positive area, the union fits the cargo contract, the vertical gap is small. */
  predicate CanBundle(a: Geometry, b: Geometry, config: Config) {
    && a.valid && b.valid
    && Min(a.x95, b.x95) - Max(a.x05, b.x05) > 0.0
    && Min(a.y95, b.y95) - Max(a.y05, b.y05) > 0.0
    && (var unionX := Max(a.x95, b.x95) - Min(a.x05, b.x05);
        var unionY := Max(a.y95, b.y95) - Min(a.y05, b.y05);
        Max(unionX, unionY) <= config.maximumLongSide && Min(unionX, unionY) <= config.maximumShortSide)
    && Max(0.0, Max(a.minZ, b.minZ) - Min(a.maxZ, b.maxZ)) <= config.maximumVerticalGap
  }

  function Edge(geometries: seq<Geometry>, config: Config): (nat, nat) -> bool {
    (i: nat, j: nat) => i < |geometries| && j < |geometries| && CanBundle(geometries[i], geometries[j], config)
  }

  /** Components end under one root exactly when a chain of bundleable components links them. */
  method BundleRoots(geometries: seq<Geometry>, config: Config) returns (roots: seq<nat>)
    ensures |roots| == |geometries|
    ensures DisjointSets.ClassesAreChains(Edge(geometries, config), roots)
  {
    var n := |geometries|;
    var sets := new DisjointSets.UnionFind(n);
    DisjointSets.BundleLinked(sets, Edge(geometries, config));
    ghost var rep := sets.rep;
    roots := [];
    for i := 0 to n
      invariant sets.Valid() && sets.rep == rep && |rep| == n
      invariant roots == rep[..i]
    {
      var root := sets.FindRoot(i);
      roots := roots + [root];
    }
    assert roots == rep;
  }
}
