/** What the builder guarantees about the repository it fills. */
module RepositoryProperties {
  import opened Wrappers
  import opened TypeAlgebra
  import opened PyDict
  import opened Descriptors
  import opened Parts
  import opened Multiarrows
  import opened RepositoryBuilder

  // ---------------------------------------------------------------- blacklist

  /** Without a blacklist (`None` or empty) nothing is blacklisted, whatever the taxonomy. */
  lemma NoBlacklistNeverBlacklists(
    blacklist: Option<seq<TypeName>>, uuid: Uuid, part: PartDescriptor, taxonomy: Option<Taxonomy>, role: Role)
    requires blacklist.None? || blacklist == Some([])
    ensures !IsBlacklistedUnderSubtyping(blacklist, uuid, part, taxonomy, role)
  {
  }

  /** With a blacklist, a joint origin is blacklisted exactly when its role type is a subtype of the blacklist's intersection. */
  lemma BlacklistedIffSubtype(
    blacklist: seq<TypeName>, uuid: Uuid, part: PartDescriptor, taxonomy: Taxonomy, role: Role)
    requires |blacklist| > 0 && uuid in part.jointOrigins
    ensures IsBlacklistedUnderSubtyping(Some(blacklist), uuid, part, Some(taxonomy), role) <==>
      taxonomy(IntersectNames(part.jointOrigins[uuid].RoleTypes(role)), IntersectNames(blacklist))
  {
  }

  // ------------------------------------------------------ configuration keys

  /** With distinct required ids, the slot dict of a key lists exactly those ids, in declared order. */
  lemma {:induction false} FetchKeysInDeclaredOrder(part: PartDescriptor, requiresJointOrigins: seq<Uuid>)
    requires forall u :: u in requiresJointOrigins ==> u in part.jointOrigins
    requires Distinct(requiresJointOrigins)
    ensures Keys(FetchRequiredJointOriginsInfo(part, requiresJointOrigins)) == requiresJointOrigins
    decreases |requiresJointOrigins|
  {
    if requiresJointOrigins != [] {
      var n := |requiresJointOrigins|;
      var u := requiresJointOrigins[n - 1];
      var init := requiresJointOrigins[..n - 1];
      assert forall v :: v in init ==> v in requiresJointOrigins;
      assert Distinct(init) by {
        forall i, j | 0 <= i < j < |init| ensures init[i] != init[j] {
          assert init[i] == requiresJointOrigins[i] && init[j] == requiresJointOrigins[j];
        }
      }
      FetchKeysInDeclaredOrder(part, init);
      var d := FetchRequiredJointOriginsInfo(part, init);
      assert u !in init by {
        forall j | 0 <= j < |init| ensures init[j] != u {
          assert init[j] == requiresJointOrigins[j];
        }
      }
      assert requiresJointOrigins == init + [u];
    }
  }

  /**
   * A configuration key is the part's `meta` plus a slot dict holding
   * every required id, each mapped to its joint origin; the provided id;
   * and the provided joint origin's motion.
   */
  lemma ConfigurationKeyShape(part: PartDescriptor, configuration: Configuration)
    requires Resolvable(part, configuration)
    ensures var info := ConfigurationKey(part, configuration).info;
      && info.meta == part.meta
      && info.requiredJointOriginsInfo.Some?
      && (forall u :: u in Keys(info.requiredJointOriginsInfo.value) <==> u in configuration.requiresJointOrigins)
      && (forall i :: 0 <= i < |info.requiredJointOriginsInfo.value| ==>
            info.requiredJointOriginsInfo.value[i].1 == part.jointOrigins[info.requiredJointOriginsInfo.value[i].0])
      && info.providesUuid == configuration.providesJointOrigin
      && info.motion == part.jointOrigins[configuration.providesJointOrigin].motion
  {
    RequiredAmongConfigurationUuids(configuration);
    var d := FetchRequiredJointOriginsInfo(part, configuration.requiresJointOrigins);
    forall u | u in Keys(d) ensures u in configuration.requiresJointOrigins {
      var i :| 0 <= i < |Keys(d)| && Keys(d)[i] == u;
      assert d[i].0 == u;
    }
  }

  // ------------------------------------------------------ virtual substitutes

  /**
   * Two substitute keys are equal exactly when they stand for the same slot
   * id and their requires-role types hash alike; so the same id with the
   * same requires-role type always yields the same key, and different ids
   * never share one.
   */
  lemma SubstituteKeyIdentity(p1: PartDescriptor, u1: Uuid, p2: PartDescriptor, u2: Uuid, typeHash: TypeHash)
    requires u1 in p1.jointOrigins && u2 in p2.jointOrigins
    ensures CreateVirtualSubstitutePart(p1, u1, typeHash) == CreateVirtualSubstitutePart(p2, u2, typeHash) <==>
      u1 == u2 && typeHash(GetJointOriginType(u1, p1, Requires)) == typeHash(GetJointOriginType(u2, p2, Requires))
  {
    var h1 := typeHash(GetJointOriginType(u1, p1, Requires));
    var h2 := typeHash(GetJointOriginType(u2, p2, Requires));
    var n := |ConnectMarkerPrefix|;
    if ConnectMarkerPrefix + h1 == ConnectMarkerPrefix + h2 {
      assert (ConnectMarkerPrefix + h1)[n..] == h1;
      assert (ConnectMarkerPrefix + h2)[n..] == h2;
    }
  }

  /**
   * A substitute is a zero-argument combinator marker: it provides the slot
   * id, moves rigidly, inserts no document, and its name is the marker
   * prefix followed by the hash of the slot's requires-role type.
   */
  lemma SubstituteFields(part: PartDescriptor, uuid: Uuid, typeHash: TypeHash)
    requires uuid in part.jointOrigins
    ensures var info := CreateVirtualSubstitutePart(part, uuid, typeHash).info;
      && info.providesUuid == uuid
      && info.motion == "Rigid"
      && info.meta.forgeDocumentId == "NoInsert"
      && info.meta.forgeFolderId == "NoInsert"
      && info.meta.forgeProjectId == "NoInsert"
      && info.meta.jointOrder == map[]
      && info.requiredJointOriginsInfo.None?
      && info.meta.name[..17] == "clsconnectmarker_"
      && info.meta.name[17..] == typeHash(IntersectNames(part.jointOrigins[uuid].requiresTypes))
  {
  }

  /** A substitute key never coincides with a configuration key, so neither kind of write overwrites the other. */
  lemma SubstituteIsNotConfigurationKey(
    part: PartDescriptor, uuid: Uuid, typeHash: TypeHash, other: PartDescriptor, configuration: Configuration)
    requires uuid in part.jointOrigins && Resolvable(other, configuration)
    ensures CreateVirtualSubstitutePart(part, uuid, typeHash) != ConfigurationKey(other, configuration)
  {
  }

  // ------------------------------------------------------ configuration types

  /** The positions of a configuration's chain: requires-role types of the required ids in order, then the provides-role type. */
  function RoleSpine(part: PartDescriptor, configuration: Configuration): (s: seq<Type>)
    requires Resolvable(part, configuration)
    ensures |s| == |configuration.requiresJointOrigins| + 1
  {
    var required := configuration.requiresJointOrigins;
    RequiredAmongConfigurationUuids(configuration);
    seq(|required|, i requires 0 <= i < |required| => GetJointOriginType(required[i], part, Requires))
      + [GetJointOriginType(configuration.providesJointOrigin, part, Provides)]
  }

  lemma TypesFromConfigurationUuids(part: PartDescriptor, configuration: Configuration)
    requires Resolvable(part, configuration)
    ensures TypesFromUuids(ConfigurationUuids(configuration), part) == RoleSpine(part, configuration)
  {
    var uuids := ConfigurationUuids(configuration);
    var ts := TypesFromUuids(uuids, part);
    var rs := RoleSpine(part, configuration);
    forall i | 0 <= i < |ts| ensures ts[i] == rs[i] {
      if i < |uuids| - 1 {
        assert uuids[i] == configuration.requiresJointOrigins[i];
      }
    }
  }

  /**
   * The type stored for a retained configuration. Without propagated types
   * it is exactly the chain of its role types in declared order. With them
   * it intersects that chain with one overload per propagated set, in the
   * order the sets are given (`PropagationOverloadShape` describes one).
   */
  lemma StoredTypeShape(part: PartDescriptor, configuration: Configuration, propagatedTypes: seq<seq<TypeName>>)
    requires Resolvable(part, configuration)
    ensures var t := ConfigurationType(part, configuration, propagatedTypes);
      && (|propagatedTypes| == 0 ==> t == Chain(RoleSpine(part, configuration)))
      && (|propagatedTypes| > 0 ==>
            && t.Intersect?
            && |t.members| == |propagatedTypes| + 1
            && t.members[0] == Chain(RoleSpine(part, configuration))
            && forall k :: 0 <= k < |propagatedTypes| ==>
                 t.members[k + 1] ==
                   PropagationOverload(IntersectNames(propagatedTypes[k]), |configuration.requiresJointOrigins| + 1))
  {
    TypesFromConfigurationUuids(part, configuration);
    MultiarrowIsChain(RoleSpine(part, configuration));
  }

  /** The plain chain reads back as the role types, so argument order is exactly the declared order. */
  lemma StoredChainPositions(part: PartDescriptor, configuration: Configuration)
    requires Resolvable(part, configuration)
    ensures Spine(ConfigurationType(part, configuration, []), |configuration.requiresJointOrigins| + 1)
      == RoleSpine(part, configuration)
  {
    StoredTypeShape(part, configuration, []);
    SpineOfChain(RoleSpine(part, configuration));
  }

  /** A configuration with no required joint origins is stored as its provides-role type, with no arrow. */
  lemma ZeroArgumentConfiguration(part: PartDescriptor, configuration: Configuration)
    requires Resolvable(part, configuration) && configuration.requiresJointOrigins == []
    ensures ConfigurationType(part, configuration, []) ==
      GetJointOriginType(configuration.providesJointOrigin, part, Provides)
  {
    StoredTypeShape(part, configuration, []);
  }

  /** Required ids `[r1, r2]` and provided id `p` give `T(r1) -> (T(r2) -> T(p))`, never the reverse. */
  lemma TwoArgumentOrder(part: PartDescriptor, r1: Uuid, r2: Uuid, p: Uuid)
    requires r1 in part.jointOrigins && r2 in part.jointOrigins && p in part.jointOrigins
    ensures ConfigurationType(part, Configuration([r1, r2], p), []) ==
      Arrow(GetJointOriginType(r1, part, Requires),
        Arrow(GetJointOriginType(r2, part, Requires), GetJointOriginType(p, part, Provides)))
  {
    var c := Configuration([r1, r2], p);
    StoredTypeShape(part, c, []);
    var rs := RoleSpine(part, c);
    assert rs == [GetJointOriginType(r1, part, Requires), GetJointOriginType(r2, part, Requires),
                  GetJointOriginType(p, part, Provides)];
    assert rs[1..][1..] == [GetJointOriginType(p, part, Provides)];
    assert Chain(rs[1..]) == Arrow(rs[1], Chain(rs[1..][1..]));
  }

  // ------------------------------------------------------ the slot loop

  /** The substitute keys the slot loop writes for `uuids`: one per blacklisted slot. */
  ghost function SubstituteKeysOf(part: PartDescriptor, uuids: seq<Uuid>, opts: BuildOptions, typeHash: TypeHash)
    : set<Part>
    requires BlacklistGiven(opts.blacklist) ==> opts.taxonomy.Some?
    requires forall u :: u in uuids ==> u in part.jointOrigins
  {
    set u | u in uuids && SlotBlacklisted(part, u, opts) :: CreateVirtualSubstitutePart(part, u, typeHash)
  }

  lemma SubstituteKeysSnoc(part: PartDescriptor, uuids: seq<Uuid>, u: Uuid, opts: BuildOptions, typeHash: TypeHash)
    requires BlacklistGiven(opts.blacklist) ==> opts.taxonomy.Some?
    requires forall v :: v in uuids + [u] ==> v in part.jointOrigins
    ensures forall v :: v in uuids ==> v in part.jointOrigins
    ensures SubstituteKeysOf(part, uuids + [u], opts, typeHash) ==
      SubstituteKeysOf(part, uuids, opts, typeHash) +
        (if SlotBlacklisted(part, u, opts) then {CreateVirtualSubstitutePart(part, u, typeHash)} else {})
  {
    assert u in uuids + [u];
    assert forall v :: v in uuids + [u] <==> v in uuids || v == u;
  }

  /** The slot loop adds exactly the substitute keys of its blacklisted slots. */
  lemma {:induction false} AddSubstitutesKeys(
    m: map<Part, Type>, part: PartDescriptor, uuids: seq<Uuid>, opts: BuildOptions, typeHash: TypeHash)
    requires BlacklistGiven(opts.blacklist) ==> opts.taxonomy.Some?
    requires forall u :: u in uuids ==> u in part.jointOrigins
    ensures AddSubstitutes(m, part, uuids, opts, typeHash).Keys == m.Keys + SubstituteKeysOf(part, uuids, opts, typeHash)
    decreases |uuids|
  {
    if uuids == [] {
      assert SubstituteKeysOf(part, uuids, opts, typeHash) == {};
    } else {
      var n := |uuids|;
      var init, last := uuids[..n - 1], uuids[n - 1];
      assert uuids == init + [last];
      SubstituteKeysSnoc(part, init, last, opts, typeHash);
      AddSubstitutesKeys(m, part, init, opts, typeHash);
    }
  }

  /** A key that is not one of the substitutes keeps its entry through the slot loop. */
  lemma {:induction false} AddSubstitutesKeeps(
    m: map<Part, Type>, part: PartDescriptor, uuids: seq<Uuid>, opts: BuildOptions, typeHash: TypeHash, k: Part)
    requires BlacklistGiven(opts.blacklist) ==> opts.taxonomy.Some?
    requires forall u :: u in uuids ==> u in part.jointOrigins
    requires k !in SubstituteKeysOf(part, uuids, opts, typeHash)
    ensures var r := AddSubstitutes(m, part, uuids, opts, typeHash);
      k in m ==> k in r && r[k] == m[k]
    decreases |uuids|
  {
    if uuids != [] {
      var n := |uuids|;
      var init, last := uuids[..n - 1], uuids[n - 1];
      assert uuids == init + [last];
      SubstituteKeysSnoc(part, init, last, opts, typeHash);
      AddSubstitutesKeeps(m, part, init, opts, typeHash, k);
    }
  }

  /** Every blacklisted slot ends with its substitute, typed by the slot's requires-role type. */
  lemma {:induction false} AddSubstitutesWrites(
    m: map<Part, Type>, part: PartDescriptor, uuids: seq<Uuid>, opts: BuildOptions, typeHash: TypeHash, u: Uuid)
    requires BlacklistGiven(opts.blacklist) ==> opts.taxonomy.Some?
    requires forall v :: v in uuids ==> v in part.jointOrigins
    requires u in uuids && SlotBlacklisted(part, u, opts)
    ensures var r := AddSubstitutes(m, part, uuids, opts, typeHash);
      var sub := CreateVirtualSubstitutePart(part, u, typeHash);
      sub in r && r[sub] == GetJointOriginType(u, part, Requires)
    decreases |uuids|
  {
    var n := |uuids|;
    var init, last := uuids[..n - 1], uuids[n - 1];
    assert uuids == init + [last];
    assert forall v :: v in init ==> v in uuids;
    if u != last {
      assert u in init;
      AddSubstitutesWrites(m, part, init, opts, typeHash, u);
      if SlotBlacklisted(part, last, opts) {
        assert CreateVirtualSubstitutePart(part, last, typeHash).info.providesUuid == last;
      }
    }
  }

  // ------------------------------------------------ the configuration loop

  /** The keys one iteration of the configuration loop writes: none when skipped, else its own and its substitutes. */
  ghost function ConfigurationWrites(part: PartDescriptor, c: Configuration, opts: BuildOptions, typeHash: TypeHash)
    : set<Part>
    requires ConfigurationReadable(part, c, opts)
  {
    if Skipped(part, c, opts) then {}
    else
      RequiredAmongConfigurationUuids(c);
      {ConfigurationKey(part, c)} + SubstituteKeysOf(part, c.requiresJointOrigins, opts, typeHash)
  }

  /** One iteration adds exactly the keys it writes. */
  lemma AddConfigurationKeys(
    m: map<Part, Type>, part: PartDescriptor, c: Configuration, opts: BuildOptions, typeHash: TypeHash)
    requires ConfigurationReadable(part, c, opts)
    ensures AddConfiguration(m, part, c, opts, typeHash).Keys == m.Keys + ConfigurationWrites(part, c, opts, typeHash)
  {
    if !Skipped(part, c, opts) {
      RequiredAmongConfigurationUuids(c);
      var withMain := m[ConfigurationKey(part, c) := ConfigurationType(part, c, opts.propagatedTypes)];
      AddSubstitutesKeys(withMain, part, c.requiresJointOrigins, opts, typeHash);
    }
  }

  /** A key one iteration does not write keeps its entry; a skipped configuration changes nothing. */
  lemma AddConfigurationKeeps(
    m: map<Part, Type>, part: PartDescriptor, c: Configuration, opts: BuildOptions, typeHash: TypeHash, k: Part)
    requires ConfigurationReadable(part, c, opts)
    requires k !in ConfigurationWrites(part, c, opts, typeHash)
    ensures var r := AddConfiguration(m, part, c, opts, typeHash);
      k in m ==> k in r && r[k] == m[k]
  {
    if !Skipped(part, c, opts) {
      RequiredAmongConfigurationUuids(c);
      var withMain := m[ConfigurationKey(part, c) := ConfigurationType(part, c, opts.propagatedTypes)];
      AddSubstitutesKeeps(withMain, part, c.requiresJointOrigins, opts, typeHash, k);
    }
  }

  /** A retained configuration's iteration maps its key to its stored type. */
  lemma AddConfigurationStores(
    m: map<Part, Type>, part: PartDescriptor, c: Configuration, opts: BuildOptions, typeHash: TypeHash)
    requires ConfigurationReadable(part, c, opts) && !Skipped(part, c, opts)
    ensures var r := AddConfiguration(m, part, c, opts, typeHash);
      ConfigurationKey(part, c) in r && r[ConfigurationKey(part, c)] == ConfigurationType(part, c, opts.propagatedTypes)
  {
    RequiredAmongConfigurationUuids(c);
    var key := ConfigurationKey(part, c);
    var withMain := m[key := ConfigurationType(part, c, opts.propagatedTypes)];
    assert key !in SubstituteKeysOf(part, c.requiresJointOrigins, opts, typeHash);
    AddSubstitutesKeeps(withMain, part, c.requiresJointOrigins, opts, typeHash, key);
  }

  /** A retained configuration's iteration writes the substitute of each blacklisted slot. */
  lemma AddConfigurationSubstitute(
    m: map<Part, Type>, part: PartDescriptor, c: Configuration, opts: BuildOptions, typeHash: TypeHash, u: Uuid)
    requires ConfigurationReadable(part, c, opts) && !Skipped(part, c, opts)
    requires u in c.requiresJointOrigins && SlotBlacklisted(part, u, opts)
    ensures var r := AddConfiguration(m, part, c, opts, typeHash);
      var sub := CreateVirtualSubstitutePart(part, u, typeHash);
      sub in r && r[sub] == GetJointOriginType(u, part, Requires)
  {
    RequiredAmongConfigurationUuids(c);
    var withMain := m[ConfigurationKey(part, c) := ConfigurationType(part, c, opts.propagatedTypes)];
    AddSubstitutesWrites(withMain, part, c.requiresJointOrigins, opts, typeHash, u);
  }

  /** Every key `add_part_to_repository` writes for the configurations `cs`. */
  ghost function WrittenKeys(part: PartDescriptor, cs: seq<Configuration>, opts: BuildOptions, typeHash: TypeHash)
    : set<Part>
    requires AllReadable(part, cs, opts)
    decreases |cs|
  {
    if cs == [] then {}
    else
      var n := |cs|;
      assert forall c :: c in cs[..n - 1] ==> c in cs;
      WrittenKeys(part, cs[..n - 1], opts, typeHash) + ConfigurationWrites(part, cs[n - 1], opts, typeHash)
  }

  /** A key is written for `cs` exactly when some configuration of `cs` writes it. */
  lemma {:induction false} WrittenKeysMembership(
    part: PartDescriptor, cs: seq<Configuration>, opts: BuildOptions, typeHash: TypeHash, k: Part)
    requires AllReadable(part, cs, opts)
    ensures k in WrittenKeys(part, cs, opts, typeHash) <==>
      exists i :: 0 <= i < |cs| && k in ConfigurationWrites(part, cs[i], opts, typeHash)
    decreases |cs|
  {
    if cs != [] {
      var n := |cs|;
      var init := cs[..n - 1];
      assert forall c :: c in init ==> c in cs;
      WrittenKeysMembership(part, init, opts, typeHash, k);
      if k in WrittenKeys(part, init, opts, typeHash) {
        var i :| 0 <= i < |init| && k in ConfigurationWrites(part, init[i], opts, typeHash);
        assert cs[i] == init[i];
      } else if k !in ConfigurationWrites(part, cs[n - 1], opts, typeHash) {
        forall i | 0 <= i < |cs| ensures k !in ConfigurationWrites(part, cs[i], opts, typeHash) {
          if i < n - 1 {
            assert cs[i] == init[i];
          }
        }
      }
    }
  }

  /** The configuration loop adds exactly the written keys. */
  lemma {:induction false} AddConfigurationsKeys(
    m: map<Part, Type>, part: PartDescriptor, cs: seq<Configuration>, opts: BuildOptions, typeHash: TypeHash)
    requires AllReadable(part, cs, opts)
    ensures AddConfigurations(m, part, cs, opts, typeHash).Keys == m.Keys + WrittenKeys(part, cs, opts, typeHash)
    decreases |cs|
  {
    if cs != [] {
      var n := |cs|;
      var init := cs[..n - 1];
      assert forall c :: c in init ==> c in cs;
      AddConfigurationsKeys(m, part, init, opts, typeHash);
      AddConfigurationKeys(AddConfigurations(m, part, init, opts, typeHash), part, cs[n - 1], opts, typeHash);
    }
  }

  /** A key the configuration loop does not write keeps its entry. */
  lemma {:induction false} AddConfigurationsKeeps(
    m: map<Part, Type>, part: PartDescriptor, cs: seq<Configuration>, opts: BuildOptions, typeHash: TypeHash, k: Part)
    requires AllReadable(part, cs, opts)
    requires k !in WrittenKeys(part, cs, opts, typeHash)
    ensures var r := AddConfigurations(m, part, cs, opts, typeHash);
      k in m ==> k in r && r[k] == m[k]
    decreases |cs|
  {
    if cs != [] {
      var n := |cs|;
      var init := cs[..n - 1];
      assert forall c :: c in init ==> c in cs;
      AddConfigurationsKeeps(m, part, init, opts, typeHash, k);
      AddConfigurationKeeps(AddConfigurations(m, part, init, opts, typeHash), part, cs[n - 1], opts, typeHash, k);
    }
  }

  /** An iteration never changes a substitute's entry: if it writes the key at all, it is for the same slot id. */
  lemma AddConfigurationPreservesSubstitute(
    m: map<Part, Type>, part: PartDescriptor, c: Configuration, opts: BuildOptions, typeHash: TypeHash, u: Uuid)
    requires ConfigurationReadable(part, c, opts) && u in part.jointOrigins
    requires var sub := CreateVirtualSubstitutePart(part, u, typeHash);
      sub in m && m[sub] == GetJointOriginType(u, part, Requires)
    ensures var r := AddConfiguration(m, part, c, opts, typeHash);
      var sub := CreateVirtualSubstitutePart(part, u, typeHash);
      sub in r && r[sub] == GetJointOriginType(u, part, Requires)
  {
    var sub := CreateVirtualSubstitutePart(part, u, typeHash);
    if sub in ConfigurationWrites(part, c, opts, typeHash) {
      RequiredAmongConfigurationUuids(c);
      assert sub != ConfigurationKey(part, c);
      var v :| v in c.requiresJointOrigins && SlotBlacklisted(part, v, opts)
        && CreateVirtualSubstitutePart(part, v, typeHash) == sub;
      assert CreateVirtualSubstitutePart(part, v, typeHash).info.providesUuid == v;
      AddConfigurationSubstitute(m, part, c, opts, typeHash, v);
    } else {
      AddConfigurationKeeps(m, part, c, opts, typeHash, sub);
    }
  }

  /** The configuration loop never changes a substitute's entry once it is there. */
  lemma {:induction false} AddConfigurationsPreservesSubstitute(
    m: map<Part, Type>, part: PartDescriptor, cs: seq<Configuration>, opts: BuildOptions, typeHash: TypeHash, u: Uuid)
    requires AllReadable(part, cs, opts) && u in part.jointOrigins
    requires var sub := CreateVirtualSubstitutePart(part, u, typeHash);
      sub in m && m[sub] == GetJointOriginType(u, part, Requires)
    ensures var r := AddConfigurations(m, part, cs, opts, typeHash);
      var sub := CreateVirtualSubstitutePart(part, u, typeHash);
      sub in r && r[sub] == GetJointOriginType(u, part, Requires)
    decreases |cs|
  {
    if cs != [] {
      var n := |cs|;
      var init := cs[..n - 1];
      assert forall c :: c in init ==> c in cs;
      AddConfigurationsPreservesSubstitute(m, part, init, opts, typeHash, u);
      AddConfigurationPreservesSubstitute(
        AddConfigurations(m, part, init, opts, typeHash), part, cs[n - 1], opts, typeHash, u);
    }
  }

  /** The configuration loop seen around its iteration `i`. */
  lemma AddConfigurationsAround(
    m: map<Part, Type>, part: PartDescriptor, cs: seq<Configuration>, i: nat, opts: BuildOptions, typeHash: TypeHash)
    requires AllReadable(part, cs, opts) && i < |cs|
    ensures AllReadable(part, cs[..i], opts) && ConfigurationReadable(part, cs[i], opts)
    ensures AllReadable(part, cs[i + 1..], opts)
    ensures AddConfigurations(m, part, cs, opts, typeHash) ==
      AddConfigurations(
        AddConfiguration(AddConfigurations(m, part, cs[..i], opts, typeHash), part, cs[i], opts, typeHash),
        part, cs[i + 1..], opts, typeHash)
  {
    var head, tail := cs[..i + 1], cs[i + 1..];
    assert cs == head + tail;
    AddConfigurationsAppend(m, part, head, tail, opts, typeHash);
    assert head[..i] == cs[..i] && head[i] == cs[i];
    assert forall c :: c in cs[..i] ==> c in cs;
  }

  /**
   * A substitute written for a retained configuration keeps its value to
   * the end: a later write of the same key is for the same slot id, hence
   * of the same type.
   */
  lemma SubstituteEntryPersists(
    m: map<Part, Type>, part: PartDescriptor, cs: seq<Configuration>, i: nat, u: Uuid,
    opts: BuildOptions, typeHash: TypeHash)
    requires AllReadable(part, cs, opts)
    requires i < |cs| && !Skipped(part, cs[i], opts)
    requires u in cs[i].requiresJointOrigins && SlotBlacklisted(part, u, opts)
    ensures var r := AddConfigurations(m, part, cs, opts, typeHash);
      var sub := CreateVirtualSubstitutePart(part, u, typeHash);
      sub in r && r[sub] == GetJointOriginType(u, part, Requires)
  {
    AddConfigurationsAround(m, part, cs, i, opts, typeHash);
    assert u in part.jointOrigins by {
      assert u in ConfigurationUuids(cs[i]);
    }
    var before := AddConfigurations(m, part, cs[..i], opts, typeHash);
    AddConfigurationSubstitute(before, part, cs[i], opts, typeHash, u);
    AddConfigurationsPreservesSubstitute(
      AddConfiguration(before, part, cs[i], opts, typeHash), part, cs[i + 1..], opts, typeHash, u);
  }

  /**
   * A retained configuration ends with its entry, mapped to its stored
   * type, as long as no later configuration writes the same key.
   */
  lemma RetainedConfigurationEntry(
    m: map<Part, Type>, part: PartDescriptor, cs: seq<Configuration>, i: nat, opts: BuildOptions, typeHash: TypeHash)
    requires AllReadable(part, cs, opts)
    requires i < |cs| && !Skipped(part, cs[i], opts)
    requires AllReadable(part, cs[i + 1..], opts) &&
      ConfigurationKey(part, cs[i]) !in WrittenKeys(part, cs[i + 1..], opts, typeHash)
    ensures var r := AddConfigurations(m, part, cs, opts, typeHash);
      ConfigurationKey(part, cs[i]) in r &&
      r[ConfigurationKey(part, cs[i])] == ConfigurationType(part, cs[i], opts.propagatedTypes)
  {
    AddConfigurationsAround(m, part, cs, i, opts, typeHash);
    var before := AddConfigurations(m, part, cs[..i], opts, typeHash);
    AddConfigurationStores(before, part, cs[i], opts, typeHash);
    AddConfigurationsKeeps(
      AddConfiguration(before, part, cs[i], opts, typeHash), part, cs[i + 1..], opts, typeHash,
      ConfigurationKey(part, cs[i]));
  }

  /** An iteration writes a key that carries a slot dict exactly when it is retained and that is its own key. */
  lemma ConfigurationWritesOfKey(part: PartDescriptor, c: Configuration, opts: BuildOptions, typeHash: TypeHash, key: Part)
    requires ConfigurationReadable(part, c, opts) && key.info.requiredJointOriginsInfo.Some?
    ensures key in ConfigurationWrites(part, c, opts, typeHash) <==> !Skipped(part, c, opts) && ConfigurationKey(part, c) == key
  {
    if !Skipped(part, c, opts) {
      RequiredAmongConfigurationUuids(c);
      assert key !in SubstituteKeysOf(part, c.requiresJointOrigins, opts, typeHash);
    }
  }

  /**
   * The condition of `RetainedConfigurationEntry`: as a configuration key
   * is never a substitute, a later configuration writes it exactly when
   * it is retained and has the same key.
   */
  lemma LaterWritesOfConfigurationKey(
    part: PartDescriptor, cs: seq<Configuration>, i: nat, opts: BuildOptions, typeHash: TypeHash)
    requires AllReadable(part, cs, opts)
    requires i < |cs| && !Skipped(part, cs[i], opts)
    ensures AllReadable(part, cs[i + 1..], opts)
    ensures ConfigurationKey(part, cs[i]) in WrittenKeys(part, cs[i + 1..], opts, typeHash) <==>
      exists j :: i < j < |cs| && !Skipped(part, cs[j], opts) && ConfigurationKey(part, cs[j]) == ConfigurationKey(part, cs[i])
  {
    var tail := cs[i + 1..];
    assert cs[i] in cs;
    var key := ConfigurationKey(part, cs[i]);
    assert forall c :: c in tail ==> c in cs;
    WrittenKeysMembership(part, tail, opts, typeHash, key);
    if key in WrittenKeys(part, tail, opts, typeHash) {
      var t :| 0 <= t < |tail| && key in ConfigurationWrites(part, tail[t], opts, typeHash);
      assert tail[t] == cs[i + 1 + t];
      ConfigurationWritesOfKey(part, tail[t], opts, typeHash, key);
    } else {
      forall j | i < j < |cs| && !Skipped(part, cs[j], opts) ensures ConfigurationKey(part, cs[j]) != key {
        assert tail[j - i - 1] == cs[j];
        ConfigurationWritesOfKey(part, cs[j], opts, typeHash, key);
      }
    }
  }

  lemma {:induction false} AddConfigurationsAppend(
    m: map<Part, Type>, part: PartDescriptor, a: seq<Configuration>, b: seq<Configuration>, opts: BuildOptions,
    typeHash: TypeHash)
    requires AllReadable(part, a + b, opts)
    ensures AllReadable(part, a, opts) && AllReadable(part, b, opts)
    ensures AddConfigurations(m, part, a + b, opts, typeHash) ==
      AddConfigurations(AddConfigurations(m, part, a, opts, typeHash), part, b, opts, typeHash)
    decreases |b|
  {
    assert forall c :: c in a ==> c in a + b;
    assert forall c :: c in b ==> c in a + b;
    if b == [] {
      assert a + b == a;
    } else {
      var n := |b|;
      var init := b[..n - 1];
      assert (a + b)[..|a + b| - 1] == a + init;
      assert (a + b)[|a + b| - 1] == b[n - 1];
      assert forall c :: c in a + init ==> c in a + b;
      AddConfigurationsAppend(m, part, a, init, opts, typeHash);
    }
  }

  /**
   * Rule A: a configuration whose provided type falls under the blacklist
   * contributes nothing, neither its own entry nor substitutes for its
   * slots: the repository is the one built without it.
   */
  lemma SkippedConfigurationAddsNothing(
    m: map<Part, Type>, part: PartDescriptor, cs: seq<Configuration>, i: nat, opts: BuildOptions, typeHash: TypeHash)
    requires AllReadable(part, cs, opts)
    requires i < |cs| && Skipped(part, cs[i], opts)
    ensures AllReadable(part, cs[..i] + cs[i + 1..], opts)
    ensures AddConfigurations(m, part, cs, opts, typeHash) ==
      AddConfigurations(m, part, cs[..i] + cs[i + 1..], opts, typeHash)
  {
    AddConfigurationsAround(m, part, cs, i, opts, typeHash);
    assert forall d :: d in cs[..i] + cs[i + 1..] ==> d in cs;
    AddConfigurationsAppend(m, part, cs[..i], cs[i + 1..], opts, typeHash);
  }

  /**
   * `add_part_to_repository` only writes: the keys afterwards are the old
   * keys plus the written ones, and a key it does not write keeps its old
   * value.
   */
  lemma PartAddedOnlyAdds(m: map<Part, Type>, part: PartDescriptor, opts: BuildOptions, typeHash: TypeHash)
    requires CanAdd(part, opts)
    ensures var r := PartAdded(m, part, opts, typeHash);
      && r.Keys == m.Keys + WrittenKeys(part, part.configurations, opts, typeHash)
      && forall k :: k in m && k !in WrittenKeys(part, part.configurations, opts, typeHash) ==> r[k] == m[k]
  {
    AddConfigurationsKeys(m, part, part.configurations, opts, typeHash);
    forall k | k in m && k !in WrittenKeys(part, part.configurations, opts, typeHash)
      ensures PartAdded(m, part, opts, typeHash)[k] == m[k]
    {
      AddConfigurationsKeeps(m, part, part.configurations, opts, typeHash, k);
    }
  }

  /**
   * Rule B: every required slot of a retained configuration whose
   * provides-role type falls under the blacklist leaves a substitute entry
   * typed by the slot's requires-role type, with no arrow.
   */
  lemma BlacklistedSlotGetsSubstitute(
    m: map<Part, Type>, part: PartDescriptor, c: Configuration, u: Uuid, opts: BuildOptions, typeHash: TypeHash)
    requires CanAdd(part, opts)
    requires c in part.configurations && !Skipped(part, c, opts) && u in c.requiresJointOrigins
    requires SlotBlacklisted(part, u, opts)
    ensures CreateVirtualSubstitutePart(part, u, typeHash) in PartAdded(m, part, opts, typeHash)
    ensures PartAdded(m, part, opts, typeHash)[CreateVirtualSubstitutePart(part, u, typeHash)]
      == IntersectNames(part.jointOrigins[u].requiresTypes)
  {
    var i :| 0 <= i < |part.configurations| && part.configurations[i] == c;
    SubstituteEntryPersists(m, part, part.configurations, i, u, opts, typeHash);
  }

  /** Without a blacklist a configuration is retained and writes its own key only. */
  lemma UnblacklistedWrites(part: PartDescriptor, c: Configuration, opts: BuildOptions, typeHash: TypeHash)
    requires ConfigurationReadable(part, c, opts) && !BlacklistGiven(opts.blacklist)
    ensures !Skipped(part, c, opts) && Resolvable(part, c)
    ensures ConfigurationWrites(part, c, opts, typeHash) == {ConfigurationKey(part, c)}
  {
    RequiredAmongConfigurationUuids(c);
    assert SubstituteKeysOf(part, c.requiresJointOrigins, opts, typeHash) == {};
  }

  /** Without a blacklist every configuration is stored and no substitute is written. */
  lemma NoBlacklistStoresEveryConfiguration(
    m: map<Part, Type>, part: PartDescriptor, opts: BuildOptions, typeHash: TypeHash)
    requires CanAdd(part, opts) && !BlacklistGiven(opts.blacklist)
    ensures forall c :: c in part.configurations ==> Resolvable(part, c)
    ensures PartAdded(m, part, opts, typeHash).Keys ==
      m.Keys + set c | c in part.configurations :: ConfigurationKey(part, c)
  {
    var cs := part.configurations;
    forall c | c in cs ensures Resolvable(part, c) {
      UnblacklistedWrites(part, c, opts, typeHash);
    }
    AddConfigurationsKeys(m, part, cs, opts, typeHash);
    var stored := set c | c in cs :: ConfigurationKey(part, c);
    forall k ensures k in WrittenKeys(part, cs, opts, typeHash) <==> k in stored {
      WrittenKeysMembership(part, cs, opts, typeHash, k);
      forall i | 0 <= i < |cs| ensures ConfigurationWrites(part, cs[i], opts, typeHash) == {ConfigurationKey(part, cs[i])} {
        UnblacklistedWrites(part, cs[i], opts, typeHash);
      }
    }
    assert WrittenKeys(part, cs, opts, typeHash) == stored;
  }

  // ------------------------------------------------------ the driver

  /** Every key `add_all_to_repository` writes for `parts`. */
  ghost function AllWrittenKeys(parts: seq<PartDescriptor>, opts: BuildOptions, typeHash: TypeHash): set<Part>
    requires AllCanAdd(parts, opts)
    decreases |parts|
  {
    if parts == [] then {}
    else
      var n := |parts|;
      assert forall p :: p in parts[..n - 1] ==> p in parts;
      assert parts[n - 1] in parts;
      AllWrittenKeys(parts[..n - 1], opts, typeHash) + WrittenKeys(parts[n - 1], parts[n - 1].configurations, opts, typeHash)
  }

  /** What one part writes is among what the project writes. */
  lemma {:induction false} AllWrittenKeysHas(
    parts: seq<PartDescriptor>, j: nat, opts: BuildOptions, typeHash: TypeHash)
    requires AllCanAdd(parts, opts) && j < |parts|
    ensures CanAdd(parts[j], opts)
    ensures WrittenKeys(parts[j], parts[j].configurations, opts, typeHash) <= AllWrittenKeys(parts, opts, typeHash)
    decreases |parts|
  {
    var n := |parts|;
    var init := parts[..n - 1];
    assert parts[j] in parts && parts[n - 1] in parts;
    assert forall p :: p in init ==> p in parts;
    var last := WrittenKeys(parts[n - 1], parts[n - 1].configurations, opts, typeHash);
    assert AllWrittenKeys(parts, opts, typeHash) == AllWrittenKeys(init, opts, typeHash) + last;
    if j < n - 1 {
      assert init[j] == parts[j];
      AllWrittenKeysHas(init, j, opts, typeHash);
    }
  }

  /** The repository of a project holds exactly the keys its parts write, starting from `{}`. */
  lemma {:induction false} AllAddedKeys(parts: seq<PartDescriptor>, opts: BuildOptions, typeHash: TypeHash)
    requires AllCanAdd(parts, opts)
    ensures AllAdded(parts, opts, typeHash).Keys == AllWrittenKeys(parts, opts, typeHash)
    decreases |parts|
  {
    if parts != [] {
      var n := |parts|;
      var init, last := parts[..n - 1], parts[n - 1];
      assert forall p :: p in init ==> p in parts;
      assert last in parts;
      AllAddedKeys(init, opts, typeHash);
      AddConfigurationsKeys(AllAdded(init, opts, typeHash), last, last.configurations, opts, typeHash);
    }
  }

  /** Every retained configuration of every part of the project has an entry in the final repository. */
  lemma EveryRetainedConfigurationIsStored(
    parts: seq<PartDescriptor>, p: PartDescriptor, c: Configuration, opts: BuildOptions, typeHash: TypeHash)
    requires AllCanAdd(parts, opts)
    requires p in parts && c in p.configurations && !Skipped(p, c, opts)
    ensures ConfigurationKey(p, c) in AllAdded(parts, opts, typeHash)
  {
    var j :| 0 <= j < |parts| && parts[j] == p;
    var i :| 0 <= i < |p.configurations| && p.configurations[i] == c;
    var key := ConfigurationKey(p, c);
    AllAddedKeys(parts, opts, typeHash);
    AllWrittenKeysHas(parts, j, opts, typeHash);
    assert key in ConfigurationWrites(p, p.configurations[i], opts, typeHash);
    WrittenKeysMembership(p, p.configurations, opts, typeHash, key);
  }

  // ------------------------------------------------------ expanding keys

  /**
   * As written, expanding a virtual substitute raises `KeyError`: its
   * `info` has no `requiredJointOriginsInfo`. As intended, it expands to a
   * leaf payload.
   */
  lemma SubstituteExpansion(part: PartDescriptor, uuid: Uuid, typeHash: TypeHash, args: seq<Arg>, combine: MotionCombiner)
    requires uuid in part.jointOrigins
    ensures var sub := CreateVirtualSubstitutePart(part, uuid, typeHash);
      CallAsWritten(sub, args, combine) == Err(MissingKey("requiredJointOriginsInfo"))
    ensures var sub := CreateVirtualSubstitutePart(part, uuid, typeHash);
      Call(sub, args, combine) == Payload(sub.info, 1, [])
  {
    SubstituteCallIsLeaf(CreateVirtualSubstitutePart(part, uuid, typeHash), args, combine);
  }

  /**
   * The substitute is meant to fill a slot: expanding a configuration key
   * whose first slot is given its substitute, uncalled, raises `KeyError`
   * as written, whereas the intended expansion connects the substitute's
   * leaf payload at that slot.
   */
  lemma ConnectingSubstituteAsWritten(
    part: PartDescriptor, configuration: Configuration, typeHash: TypeHash, rest: seq<Arg>, combine: MotionCombiner)
    requires Resolvable(part, configuration) && |configuration.requiresJointOrigins| > 0
    ensures configuration.requiresJointOrigins[0] in part.jointOrigins
    ensures var key := ConfigurationKey(part, configuration);
      var sub := CreateVirtualSubstitutePart(part, configuration.requiresJointOrigins[0], typeHash);
      CallAsWritten(key, [PartArg(sub)] + rest, combine).Err?
    ensures var key := ConfigurationKey(part, configuration);
      var sub := CreateVirtualSubstitutePart(part, configuration.requiresJointOrigins[0], typeHash);
      var r := Call(key, [PartArg(sub)] + rest, combine);
      |r.connections| > 0 && r.connections[0].1.info.providesUuid == configuration.requiresJointOrigins[0] &&
      r.connections[0].1.connections == []
  {
    var u := configuration.requiresJointOrigins[0];
    assert u in ConfigurationUuids(configuration);
    var key := ConfigurationKey(part, configuration);
    var sub := CreateVirtualSubstitutePart(part, u, typeHash);
    var args := [PartArg(sub)] + rest;
    ConfigurationKeyShape(part, configuration);
    assert |key.info.requiredJointOriginsInfo.value| > 0 by {
      assert u in Keys(key.info.requiredJointOriginsInfo.value);
    }
    assert args[0] == PartArg(sub);
    CallAsWrittenFailsExactly(key, args, combine);
  }
}
