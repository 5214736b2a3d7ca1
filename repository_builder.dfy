/**
 * The repository builder: turns part descriptors into entries of a typed
 * combinator repository, a map from content-addressed keys to types.
 */
module RepositoryBuilder {
  import opened Wrappers
  import opened TypeAlgebra
  import opened PyDict
  import opened Descriptors
  import opened Parts
  import opened Multiarrows

  /**
   * The keyword arguments shared by both entry points. `None` and an empty
   * list of propagated types behave alike in the source, so the empty
   * sequence stands for both. `connect_uuid` is accepted and never read.
   */
  datatype BuildOptions = BuildOptions(
    blacklist: Option<seq<TypeName>>,
    taxonomy: Option<Taxonomy>,
    propagatedTypes: seq<seq<TypeName>>)

  /** `str(hash(json.dumps(t, cls=CLSEncoder)))`, for the marker name of a substitute. */
  type TypeHash = Type -> string

  const ConnectMarkerPrefix := "clsconnectmarker_"
  const NoInsert := "NoInsert"
  const RigidMotion := "Rigid"

  /** `bool(blacklist)`: `None` and the empty collection are both false. */
  predicate BlacklistGiven(blacklist: Option<seq<TypeName>>)
  {
    blacklist.Some? && |blacklist.value| > 0
  }

  /** `get_joint_origin_type`: the intersection of the constructors one role of a joint origin lists. */
  function GetJointOriginType(uuid: Uuid, part: PartDescriptor, role: Role): Type
    requires uuid in part.jointOrigins
  {
    IntersectNames(part.jointOrigins[uuid].RoleTypes(role))
  }

  /** A role type reads back as exactly the constructor names the joint origin lists for that role, in order. */
  lemma GetJointOriginTypeNames(uuid: Uuid, part: PartDescriptor, role: Role)
    requires uuid in part.jointOrigins
    ensures NamesOf(GetJointOriginType(uuid, part, role)) == Some(part.jointOrigins[uuid].RoleTypes(role))
  {
    NamesRoundTrip(part.jointOrigins[uuid].RoleTypes(role));
  }

  /**
   * `is_blacklisted_under_subtyping`. The `and` short-circuits: without a
   * blacklist neither the joint origin nor the taxonomy is consulted; with
   * one, a missing joint origin raises `KeyError` and a missing taxonomy
   * `AttributeError`, which the precondition excludes.
   */
  predicate IsBlacklistedUnderSubtyping(
    blacklist: Option<seq<TypeName>>, uuid: Uuid, part: PartDescriptor,
    taxonomy: Option<Taxonomy>, role: Role)
    requires BlacklistGiven(blacklist) ==> taxonomy.Some? && uuid in part.jointOrigins
  {
    && BlacklistGiven(blacklist)
    && taxonomy.value(GetJointOriginType(uuid, part, role), IntersectNames(blacklist.value))
  }

  /** `fetch_joint_origin_info` */
  function FetchJointOriginInfo(part: PartDescriptor, uuid: Uuid): JointOrigin
    requires uuid in part.jointOrigins
  {
    part.jointOrigins[uuid]
  }

  ghost predicate Distinct<T>(s: seq<T>)
  {
    forall i, j :: 0 <= i < j < |s| ==> s[i] != s[j]
  }

  /**
   * `fetch_required_joint_origins_info`: the dict comprehension over
   * `configuration["requiresJointOrigins"]`, one assignment per id in
   * turn. A new id goes last; a repeated id is assigned its own joint
   * origin again, which leaves the dict as it was. Its keys are exactly the
   * required ids, each once, mapped to its joint origin (the order is
   * `RepositoryProperties.FetchKeysInDeclaredOrder`).
   */
  function FetchRequiredJointOriginsInfo(part: PartDescriptor, requiresJointOrigins: seq<Uuid>)
    : (d: Dict<Uuid, JointOrigin>)
    requires forall u :: u in requiresJointOrigins ==> u in part.jointOrigins
    ensures forall i :: 0 <= i < |d| ==> d[i].0 in requiresJointOrigins && d[i].1 == part.jointOrigins[d[i].0]
    ensures forall u :: u in requiresJointOrigins ==> u in Keys(d)
    decreases |requiresJointOrigins|
  {
    if requiresJointOrigins == [] then []
    else
      var n := |requiresJointOrigins|;
      var u := requiresJointOrigins[n - 1];
      var init := requiresJointOrigins[..n - 1];
      assert forall v :: v in init ==> v in requiresJointOrigins;
      var d := FetchRequiredJointOriginsInfo(part, init);
      assert requiresJointOrigins == init + [u];
      if u in Keys(d) then d
      else
        var r := d + [(u, part.jointOrigins[u])];
        assert Keys(r) == Keys(d) + [u];
        r
  }

  /** `create_virtual_substitute_part`: a key whose name depends only on the slot's requires-role type. */
  function CreateVirtualSubstitutePart(part: PartDescriptor, uuid: Uuid, typeHash: TypeHash): Part
    requires uuid in part.jointOrigins
  {
    var name := ConnectMarkerPrefix + typeHash(GetJointOriginType(uuid, part, Requires));
    Part(Info(Meta(name, NoInsert, NoInsert, NoInsert, map[]), None, uuid, RigidMotion))
  }

  /**
   * `types_from_uuids`: the requires-role type of every id but the last and
   * the provides-role type of the last. An empty list raises `IndexError`.
   */
  function TypesFromUuids(uuids: seq<Uuid>, part: PartDescriptor): (ts: seq<Type>)
    requires |uuids| > 0
    requires forall u :: u in uuids ==> u in part.jointOrigins
    ensures |ts| == |uuids|
    ensures forall i :: 0 <= i < |uuids| - 1 ==> ts[i] == GetJointOriginType(uuids[i], part, Requires)
    ensures ts[|uuids| - 1] == GetJointOriginType(uuids[|uuids| - 1], part, Provides)
  {
    var n := |uuids|;
    seq(n - 1, i requires 0 <= i < n - 1 => GetJointOriginType(uuids[i], part, Requires))
      + [GetJointOriginType(uuids[n - 1], part, Provides)]
  }

  /** `ordered_list_of_configuration_uuids`: the required ids in declared order, then the provided id. */
  function ConfigurationUuids(configuration: Configuration): seq<Uuid>
  {
    configuration.requiresJointOrigins + [configuration.providesJointOrigin]
  }

  /** Every required id is among the configuration's ids. */
  lemma RequiredAmongConfigurationUuids(configuration: Configuration)
    ensures forall u :: u in configuration.requiresJointOrigins ==> u in ConfigurationUuids(configuration)
  {
  }

  ghost predicate Resolvable(part: PartDescriptor, configuration: Configuration)
  {
    forall u :: u in ConfigurationUuids(configuration) ==> u in part.jointOrigins
  }

  /** The comprehension `propagated_types_intersections`. */
  function PropagatedOverloads(propagatedTypes: seq<seq<TypeName>>, length: nat): seq<Type>
  {
    seq(|propagatedTypes|, k requires 0 <= k < |propagatedTypes| =>
      PropagationOverload(IntersectNames(propagatedTypes[k]), length))
  }

  /** The type stored for a retained configuration (`config_multiarrow` at the time of writing). */
  function ConfigurationType(part: PartDescriptor, configuration: Configuration, propagatedTypes: seq<seq<TypeName>>)
    : Type
    requires Resolvable(part, configuration)
  {
    var configTypes := TypesFromUuids(ConfigurationUuids(configuration), part);
    var multiarrow := MultiarrowFromTypes(configTypes);
    if |propagatedTypes| > 0 then Intersect([multiarrow] + PropagatedOverloads(propagatedTypes, |configTypes|))
    else multiarrow
  }

  /** The key a retained configuration is stored under: `meta` plus the three configuration fields. */
  function ConfigurationKey(part: PartDescriptor, configuration: Configuration): Part
    requires Resolvable(part, configuration)
  {
    RequiredAmongConfigurationUuids(configuration);
    var providedUuid := configuration.providesJointOrigin;
    Part(Info(
      part.meta,
      Some(FetchRequiredJointOriginsInfo(part, configuration.requiresJointOrigins)),
      providedUuid,
      FetchJointOriginInfo(part, providedUuid).motion))
  }

  /**
   * What `add_part_to_repository` demands to finish without raising, per
   * configuration: with a blacklist, a taxonomy and the provided joint
   * origin (read by the blacklist test); unless the configuration is then
   * skipped, every joint origin it names.
   */
  predicate ConfigurationReadable(part: PartDescriptor, configuration: Configuration, opts: BuildOptions)
  {
    && (BlacklistGiven(opts.blacklist) ==>
          opts.taxonomy.Some? && configuration.providesJointOrigin in part.jointOrigins)
    && (!IsBlacklistedUnderSubtyping(opts.blacklist, configuration.providesJointOrigin, part, opts.taxonomy, Provides) ==>
          forall u :: u in ConfigurationUuids(configuration) ==> u in part.jointOrigins)
  }

  predicate AllReadable(part: PartDescriptor, cs: seq<Configuration>, opts: BuildOptions)
  {
    forall c :: c in cs ==> ConfigurationReadable(part, c, opts)
  }

  predicate CanAdd(part: PartDescriptor, opts: BuildOptions)
  {
    AllReadable(part, part.configurations, opts)
  }

  predicate AllCanAdd(parts: seq<PartDescriptor>, opts: BuildOptions)
  {
    forall p :: p in parts ==> CanAdd(p, opts)
  }

  /** Rule A: the configuration's provided type falls under the blacklist, so it is skipped. */
  predicate Skipped(part: PartDescriptor, configuration: Configuration, opts: BuildOptions)
    requires ConfigurationReadable(part, configuration, opts)
  {
    IsBlacklistedUnderSubtyping(opts.blacklist, configuration.providesJointOrigin, part, opts.taxonomy, Provides)
  }

  /** Rule B: a slot whose filler would have to provide a blacklisted type. */
  predicate SlotBlacklisted(part: PartDescriptor, uuid: Uuid, opts: BuildOptions)
    requires BlacklistGiven(opts.blacklist) ==> opts.taxonomy.Some?
    requires uuid in part.jointOrigins
  {
    IsBlacklistedUnderSubtyping(opts.blacklist, uuid, part, opts.taxonomy, Provides)
  }

  /** The writes of the slot loop over `uuids`, in order. */
  function AddSubstitutes(
    m: map<Part, Type>, part: PartDescriptor, uuids: seq<Uuid>, opts: BuildOptions, typeHash: TypeHash)
    : map<Part, Type>
    requires BlacklistGiven(opts.blacklist) ==> opts.taxonomy.Some?
    requires forall u :: u in uuids ==> u in part.jointOrigins
    decreases |uuids|
  {
    if uuids == [] then m
    else
      var n := |uuids|;
      var u := uuids[n - 1];
      assert forall v :: v in uuids[..n - 1] ==> v in uuids;
      var before := AddSubstitutes(m, part, uuids[..n - 1], opts, typeHash);
      if SlotBlacklisted(part, u, opts) then
        before[CreateVirtualSubstitutePart(part, u, typeHash) := GetJointOriginType(u, part, Requires)]
      else before
  }

  /** One iteration of the configuration loop. */
  function AddConfiguration(
    m: map<Part, Type>, part: PartDescriptor, configuration: Configuration, opts: BuildOptions, typeHash: TypeHash)
    : map<Part, Type>
    requires ConfigurationReadable(part, configuration, opts)
  {
    if Skipped(part, configuration, opts) then m
    else
      RequiredAmongConfigurationUuids(configuration);
      var withMain := m[ConfigurationKey(part, configuration) := ConfigurationType(part, configuration, opts.propagatedTypes)];
      AddSubstitutes(withMain, part, configuration.requiresJointOrigins, opts, typeHash)
  }

  /** The configuration loop over `cs`, in order. */
  function AddConfigurations(
    m: map<Part, Type>, part: PartDescriptor, cs: seq<Configuration>, opts: BuildOptions, typeHash: TypeHash)
    : map<Part, Type>
    requires AllReadable(part, cs, opts)
    decreases |cs|
  {
    if cs == [] then m
    else
      var n := |cs|;
      assert forall c :: c in cs[..n - 1] ==> c in cs;
      AddConfiguration(AddConfigurations(m, part, cs[..n - 1], opts, typeHash), part, cs[n - 1], opts, typeHash)
  }

  /** Specification of `add_part_to_repository`: the repository after adding `part` to `m`. */
  function PartAdded(m: map<Part, Type>, part: PartDescriptor, opts: BuildOptions, typeHash: TypeHash)
    : map<Part, Type>
    requires CanAdd(part, opts)
  {
    AddConfigurations(m, part, part.configurations, opts, typeHash)
  }

  /** Specification of `add_all_to_repository`: `add_part_to_repository` folded over the parts from `{}`. */
  function AllAdded(parts: seq<PartDescriptor>, opts: BuildOptions, typeHash: TypeHash): map<Part, Type>
    requires AllCanAdd(parts, opts)
    decreases |parts|
  {
    if parts == [] then map[]
    else
      var n := |parts|;
      assert forall p :: p in parts[..n - 1] ==> p in parts;
      PartAdded(AllAdded(parts[..n - 1], opts, typeHash), parts[n - 1], opts, typeHash)
  }

  /** The repository dict that `add_part_to_repository` updates in place. */
  class Repository {
    var entries: map<Part, Type>

    constructor ()
      ensures entries == map[]
    {
      entries := map[];
    }
  }

  /** The comprehension at `propagated_types_intersections`, one overload per propagated set. */
  method IntersectPropagatedTypes(propagatedTypes: seq<seq<TypeName>>, length: nat) returns (overloads: seq<Type>)
    ensures overloads == PropagatedOverloads(propagatedTypes, length)
  {
    overloads := [];
    for k := 0 to |propagatedTypes|
      invariant overloads == PropagatedOverloads(propagatedTypes[..k], length)
    {
      var tpe := IntersectNames(propagatedTypes[k]);
      var overload := IntersectAllMultiarrowsContainingType(tpe, length);
      overloads := overloads + [overload];
    }
    assert propagatedTypes[..|propagatedTypes|] == propagatedTypes;
  }

  /** The slot loop of `add_part_to_repository` (Rule B) over one retained configuration's required ids. */
  method AddVirtualSubstitutes(
    part: PartDescriptor, repository: Repository, required: seq<Uuid>, opts: BuildOptions, typeHash: TypeHash)
    requires BlacklistGiven(opts.blacklist) ==> opts.taxonomy.Some?
    requires forall u :: u in required ==> u in part.jointOrigins
    modifies repository
    ensures repository.entries == AddSubstitutes(old(repository.entries), part, required, opts, typeHash)
  {
    for j := 0 to |required|
      invariant repository.entries == AddSubstitutes(old(repository.entries), part, required[..j], opts, typeHash)
    {
      var requiredJointOriginUuid := required[j];
      assert required[..j + 1][..j] == required[..j];
      if !IsBlacklistedUnderSubtyping(opts.blacklist, requiredJointOriginUuid, part, opts.taxonomy, Provides) {
        continue;
      }
      repository.entries := repository.entries[
        CreateVirtualSubstitutePart(part, requiredJointOriginUuid, typeHash) :=
          GetJointOriginType(requiredJointOriginUuid, part, Requires)];
    }
    assert required[..|required|] == required;
  }

  /** `RepositoryBuilder.add_part_to_repository` */
  method AddPartToRepository(part: PartDescriptor, repository: Repository, opts: BuildOptions, typeHash: TypeHash)
    requires CanAdd(part, opts)
    modifies repository
    ensures repository.entries == PartAdded(old(repository.entries), part, opts, typeHash)
  {
    var cs := part.configurations;
    for i := 0 to |cs|
      invariant repository.entries == AddConfigurations(old(repository.entries), part, cs[..i], opts, typeHash)
    {
      var configuration := cs[i];
      assert configuration in part.configurations;
      assert cs[..i + 1][..i] == cs[..i];
      ghost var before := repository.entries;
      assert AddConfigurations(old(repository.entries), part, cs[..i + 1], opts, typeHash)
        == AddConfiguration(before, part, configuration, opts, typeHash);
      if IsBlacklistedUnderSubtyping(opts.blacklist, configuration.providesJointOrigin, part, opts.taxonomy, Provides) {
        continue;
      }
      var uuids := configuration.requiresJointOrigins + [configuration.providesJointOrigin];
      var configTypes := TypesFromUuids(uuids, part);
      var configMultiarrow := MultiarrowFromTypes(configTypes);
      if |opts.propagatedTypes| > 0 {
        var intersections := IntersectPropagatedTypes(opts.propagatedTypes, |configTypes|);
        configMultiarrow := Intersect([configMultiarrow] + intersections);
      }
      assert configMultiarrow == ConfigurationType(part, configuration, opts.propagatedTypes);
      repository.entries := repository.entries[ConfigurationKey(part, configuration) := configMultiarrow];
      assert forall u :: u in configuration.requiresJointOrigins ==> u in uuids;
      AddVirtualSubstitutes(part, repository, configuration.requiresJointOrigins, opts, typeHash);
      assert repository.entries == AddConfiguration(before, part, configuration, opts, typeHash);
    }
    assert cs[..|cs|] == cs;
  }

  /** `RepositoryBuilder.add_all_to_repository`, with the project's parts given as input. */
  method AddAllToRepository(parts: seq<PartDescriptor>, opts: BuildOptions, typeHash: TypeHash)
    returns (repository: Repository)
    requires AllCanAdd(parts, opts)
    ensures fresh(repository)
    ensures repository.entries == AllAdded(parts, opts, typeHash)
  {
    repository := new Repository();
    for k := 0 to |parts|
      invariant repository.entries == AllAdded(parts[..k], opts, typeHash)
    {
      assert parts[..k + 1][..k] == parts[..k];
      AddPartToRepository(parts[k], repository, opts, typeHash);
    }
    assert parts[..|parts|] == parts;
  }
}
