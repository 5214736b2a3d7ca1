/** A worked part: one configuration requiring slot "A" and providing "B". */
module EndToEnd {
  import opened Wrappers
  import opened TypeAlgebra
  import opened Descriptors
  import opened Parts
  import opened RepositoryBuilder

  const SampleMeta := Meta("P", "doc", "folder", "project", map[])

  /** Slot "A" requires `{X}` and provides `{W}`; "B" provides `{Y}`. */
  function Simple(): PartDescriptor
  {
    PartDescriptor(
      SampleMeta,
      map["A" := JointOrigin(["X"], ["W"], "Rigid", 1), "B" := JointOrigin([], ["Y"], "Rigid", 1)],
      [Configuration(["A"], "B")])
  }

  /** Subtyping that relates a type to itself only. */
  function Identity(): Taxonomy
  {
    (a: Type, b: Type) => a == b
  }

  /** Without a blacklist the repository has exactly one entry, typed `X -> Y`. */
  lemma SimpleWithoutBlacklist(typeHash: TypeHash)
    ensures AllCanAdd([Simple()], BuildOptions(None, None, []))
    ensures AllAdded([Simple()], BuildOptions(None, None, []), typeHash) ==
      map[ConfigurationKey(Simple(), Configuration(["A"], "B")) :=
        Arrow(IntersectNames(["X"]), IntersectNames(["Y"]))]
  {
    var p := Simple();
    var c := Configuration(["A"], "B");
    var opts := BuildOptions(None, None, []);
    assert [p][..0] == [];
    assert p.configurations[..0] == [];
    assert TypesFromUuids(ConfigurationUuids(c), p) == [IntersectNames(["X"]), IntersectNames(["Y"])];
  }

  /** With blacklist `{Y}` the only configuration provides `Y`, so it is skipped and nothing is added. */
  lemma SimpleWithBlacklist(typeHash: TypeHash)
    ensures AllCanAdd([Simple()], BuildOptions(Some(["Y"]), Some(Identity()), []))
    ensures AllAdded([Simple()], BuildOptions(Some(["Y"]), Some(Identity()), []), typeHash) == map[]
  {
    var p := Simple();
    assert [p][..0] == [];
    assert p.configurations[..0] == [];
  }

  /** Slot "A" requires `{Y}` and provides `{Y}`; "B" provides `{Z}`. */
  function WithConnectorSlot(): PartDescriptor
  {
    PartDescriptor(
      SampleMeta,
      map["A" := JointOrigin(["Y"], ["Y"], "Rigid", 1), "B" := JointOrigin([], ["Z"], "Rigid", 1)],
      [Configuration(["A"], "B")])
  }

  /**
   * With blacklist `{Y}` the configuration is retained (it provides `Z`),
   * and its slot, whose filler would have to provide `Y`, gets a
   * zero-argument substitute typed `Y`.
   */
  lemma ConnectorSlotGetsSubstitute(typeHash: TypeHash)
    ensures AllCanAdd([WithConnectorSlot()], BuildOptions(Some(["Y"]), Some(Identity()), []))
    ensures AllAdded([WithConnectorSlot()], BuildOptions(Some(["Y"]), Some(Identity()), []), typeHash) ==
      map[ConfigurationKey(WithConnectorSlot(), Configuration(["A"], "B")) :=
            Arrow(IntersectNames(["Y"]), IntersectNames(["Z"])),
          CreateVirtualSubstitutePart(WithConnectorSlot(), "A", typeHash) := IntersectNames(["Y"])]
  {
    var p := WithConnectorSlot();
    var c := Configuration(["A"], "B");
    assert [p][..0] == [];
    assert p.configurations[..0] == [];
    assert c.requiresJointOrigins[..0] == [];
    assert IntersectNames(["Z"]) != IntersectNames(["Y"]) by {
      assert IntersectNames(["Z"]).members[0] == Constructor("Z");
      assert IntersectNames(["Y"]).members[0] == Constructor("Y");
    }
    assert TypesFromUuids(ConfigurationUuids(c), p) == [IntersectNames(["Y"]), IntersectNames(["Z"])];
  }
}
