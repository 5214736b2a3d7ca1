# Repository builder of the CLS-CAD backend, in Dafny

The repository builder turns the part descriptors of a CAD project into the
combinator repository used for type-directed synthesis. A part has joint
origins (attachment points) and configurations: each configuration requires
an ordered list of joint origins and provides one. The builder maps each
retained configuration's content-addressed key (`Part`) to a curried type
`T(r1) -> (T(r2) -> ... -> T(p))`. Here `T(r)` is the intersection of the
constructors a joint origin lists under its *requires* role, and `T(p)` is
the same for the *provides* role. Propagated types add intersected overloads.

A blacklist with a taxonomy isolates a connector:
- **Rule A.** A configuration whose provided type falls under the blacklist is skipped entirely.
- **Rule B.** Every required slot of a retained configuration whose filler would have to provide a blacklisted type gets a zero-argument "virtual substitute" entry.

The model is split into these modules:

- `TypeAlgebra` (`type_algebra.dfy`): the external type terms as a datatype. The subtype checker is a function value passed in.
- `Descriptors`: the catalog records: joint origin, configuration, meta, part descriptor.
- `PyDict`: Python's insertion-ordered `dict` as an association list with distinct keys.
- `Parts`: the key `Part`, with its hash and equality, and its expansion `__call__`, both as written and as intended.
- `Multiarrows`: `multiarrow_from_types`, `multiarrow_to_self` and the overload builder `intersect_all_multiarrows_containing_type`. The last is a method with a loop over an array of slots.
- `RepositoryBuilder`:
  - the pure helpers;
  - the specification of the two loops as folds (`AddConfigurations`, `PartAdded`, `AllAdded`);
  - the class `Repository` whose map `entries` the methods `AddPartToRepository` and `AddAllToRepository` update in place.
- `RepositoryProperties`: what the builder guarantees, proved about the folds. Covers Rule A, Rule B, additivity, stored keys and types, and the driver.
- `EndToEnd`: three concrete parts and the repository each one yields.

A call that raises in the source (a missing joint origin, or a blacklist without a taxonomy) is excluded by a precondition. `ConfigurationReadable`, `CanAdd` and `AllCanAdd` state exactly what the loops read.

Two behaviours of the code a reader may not expect:
- A virtual substitute's key holds the slot id (`provides`) as well as the hash of its requires-role type (`repository_builder.py:97`). So two slots with the same blacklisted type but different ids give two entries, not one (`SubstituteKeyIdentity`).
- The repository is not purely additive: a write to a key that is already present replaces its value. One case is two configurations that differ only by a repeated required id: their slot dicts collapse to the same key. Parts or configurations that share a key therefore make the result depend on processing order. `RetainedConfigurationEntry` states the condition under which an entry survives.

## Model

| member | source | states |
|---|---|---|
| `TypeAlgebra.NamesRoundTrip` | applications/cls-cad-backend/cls_cps/repository_builder.py:53-56 | the intersection of constructors built from a name list reads back as exactly that list, in order |
| `TypeAlgebra.IntersectNamesInjective` | applications/cls-cad-backend/cls_cps/repository_builder.py:53-56 | two name lists give the same role type if and only if they are equal |
| `Multiarrows.MultiarrowFromTypes` | applications/cls-cad-backend/cls_cps/repository_builder.py:110-111 | a singleton list gives its element; a longer list gives an arrow whose domain is the first type |
| `Multiarrows.MultiarrowToSelf` | applications/cls-cad-backend/cls_cps/repository_builder.py:114-115 | length 1 gives `t` itself; a longer chain is an arrow from `t` |
| `Multiarrows.MultiarrowIsChain` | applications/cls-cad-backend/cls_cps/repository_builder.py:110-111 | the `reduce` over the reversed list equals the right-associated chain `t1 -> (t2 -> ... tn)` of the independent reference `Chain` |
| `Multiarrows.MultiarrowPositions` | applications/cls-cad-backend/cls_cps/repository_builder.py:110-111 | the chain of a list reads back as that list; a singleton is its element with no arrow; two lists of one length give the same chain if and only if they are equal |
| `Multiarrows.MultiarrowToSelfPositions` | applications/cls-cad-backend/cls_cps/repository_builder.py:114-115 | `multiarrow_to_self(t, n)` holds `t` at all `n` positions |
| `Multiarrows.PropagationOverloadShape` | applications/cls-cad-backend/cls_cps/repository_builder.py:118-125 | the overload intersects exactly `length - 1` chains of `length` positions; chain `x` has `t` at `x` and at the codomain and `Omega` elsewhere |
| `Multiarrows.IntersectAllMultiarrowsContainingType` | applications/cls-cad-backend/cls_cps/repository_builder.py:118-125 | the loop that fills an array of slots per position returns exactly `PropagationOverload(t, length)` |
| `Parts.Part.Equals` | applications/cls-cad-backend/cls_cps/repository_builder.py:44-45 | two keys are equal if and only if they are the same key value |
| `Parts.EqualsIsContentEquality` | applications/cls-cad-backend/cls_cps/repository_builder.py:37-45 | two keys are equal if and only if their `info` is the same, and equal keys hash alike |
| `Parts.Call` | applications/cls-cad-backend/cls_cps/repository_builder.py:13-29 | the payload is `info` with `count = 1` and one connection per zipped pair of slot and argument, in slot order; each connection carries the slot id, the slot's count, the argument's payload and the parent and slot motions combined |
| `Parts.CalledWithoutArgumentsIsCall` | applications/cls-cad-backend/cls_cps/repository_builder.py:19-21 | the no-argument call applied to an uncalled `Part` argument is `__call__` with no arguments |
| `Parts.CallAsWritten` | applications/cls-cad-backend/cls_cps/repository_builder.py:13-29 | a key without `requiredJointOriginsInfo` raises, every failure is `KeyError('requiredJointOriginsInfo')`, and a success is `info` with `count = 1` and one connection per zipped pair, keyed by the slot ids in slot order |
| `Parts.CallAsWrittenAgrees` | applications/cls-cad-backend/cls_cps/repository_builder.py:13-29 | wherever the written `__call__` succeeds, it returns what the intended expansion returns |
| `Parts.CallAsWrittenFailsExactly` | applications/cls-cad-backend/cls_cps/repository_builder.py:13-29 | the written `__call__` raises `KeyError` if and only if the key, or an uncalled `Part` argument that `zip` pairs with a slot, has no `requiredJointOriginsInfo` |
| `Parts.SubstituteCallIsLeaf` | applications/cls-cad-backend/cls_cps/repository_builder.py:13-29 | a key without a slot dict expands to a leaf payload whatever it is given |
| `RepositoryBuilder.GetJointOriginTypeNames` | applications/cls-cad-backend/cls_cps/repository_builder.py:53-56 | the role type of a joint origin reads back as exactly the constructor names it lists for that role, in order |
| `RepositoryBuilder.FetchRequiredJointOriginsInfo` | applications/cls-cad-backend/cls_cps/repository_builder.py:68-76 | every required id is a key of the slot dict, every key is a required id, and each maps to its joint origin |
| `RepositoryBuilder.TypesFromUuids` | applications/cls-cad-backend/cls_cps/repository_builder.py:103-107 | the list has one type per id: the requires-role type of every id but the last, then the provides-role type of the last |
| `RepositoryBuilder.IntersectPropagatedTypes` | applications/cls-cad-backend/cls_cps/repository_builder.py:179-186 | one overload per propagated set, in the given order |
| `RepositoryBuilder.AddVirtualSubstitutes` | applications/cls-cad-backend/cls_cps/repository_builder.py:207-220 | the slot loop leaves the repository equal to the fold `AddSubstitutes` of its old entries |
| `RepositoryBuilder.AddPartToRepository` | applications/cls-cad-backend/cls_cps/repository_builder.py:130-220 | the configuration loop leaves the repository equal to `PartAdded` of its old entries |
| `RepositoryBuilder.Repository.constructor` | applications/cls-cad-backend/cls_cps/repository_builder.py:231 | a new repository is empty |
| `RepositoryBuilder.AddAllToRepository` | applications/cls-cad-backend/cls_cps/repository_builder.py:223-241 | a fresh repository that equals `add_part_to_repository` folded over the parts from `{}` |
| `RepositoryProperties.NoBlacklistNeverBlacklists` | applications/cls-cad-backend/cls_cps/repository_builder.py:59-65 | a `None` or empty blacklist blacklists nothing, whatever the taxonomy |
| `RepositoryProperties.BlacklistedIffSubtype` | applications/cls-cad-backend/cls_cps/repository_builder.py:59-65 | with a blacklist, a joint origin is blacklisted if and only if its role type is a subtype of the blacklist's intersection |
| `RepositoryProperties.FetchKeysInDeclaredOrder` | applications/cls-cad-backend/cls_cps/repository_builder.py:68-72 | with distinct required ids, the slot dict's keys are exactly those ids in declared order |
| `RepositoryProperties.ConfigurationKeyShape` | applications/cls-cad-backend/cls_cps/repository_builder.py:192-205 | a configuration key is `meta` plus a slot dict whose keys are exactly the required ids, each mapped to its joint origin, plus the provided id and the motion of the provided joint origin, looked up by `fetch_joint_origin_info` (lines 75-76) |
| `RepositoryProperties.SubstituteKeyIdentity` | applications/cls-cad-backend/cls_cps/repository_builder.py:79-100 | two substitute keys are equal if and only if their slot ids are equal and the hashes of their requires-role types are equal |
| `RepositoryProperties.SubstituteFields` | applications/cls-cad-backend/cls_cps/repository_builder.py:79-100 | a substitute provides its slot id, moves `Rigid`, has `NoInsert` forge ids, an empty joint order, no slot dict, and is named by the marker prefix followed by the hash of the requires-role type |
| `RepositoryProperties.SubstituteIsNotConfigurationKey` | applications/cls-cad-backend/cls_cps/repository_builder.py:79-100 | a substitute key never equals a configuration key |
| `RepositoryProperties.TypesFromConfigurationUuids` | applications/cls-cad-backend/cls_cps/repository_builder.py:171-176 | the configuration's position types are the requires-role types of its required ids in declared order, then the provides-role type |
| `RepositoryProperties.StoredTypeShape` | applications/cls-cad-backend/cls_cps/repository_builder.py:171-190 | without propagated types the stored type is exactly the chain of the position types; with them it intersects that chain with one overload per set, in order |
| `RepositoryProperties.StoredChainPositions` | applications/cls-cad-backend/cls_cps/repository_builder.py:171-177 | the plain stored type reads back as the position types, so argument order is the declared order |
| `RepositoryProperties.ZeroArgumentConfiguration` | applications/cls-cad-backend/cls_cps/repository_builder.py:171-177 | a configuration with no required ids is stored as its provides-role type with no arrow |
| `RepositoryProperties.TwoArgumentOrder` | applications/cls-cad-backend/cls_cps/repository_builder.py:171-177 | required ids `[r1, r2]` and provided id `p` give `T(r1) -> (T(r2) -> T(p))` |
| `RepositoryProperties.AddSubstitutesKeys` | applications/cls-cad-backend/cls_cps/repository_builder.py:207-220 | the slot loop adds exactly one substitute key per blacklisted slot |
| `RepositoryProperties.AddSubstitutesKeeps` | applications/cls-cad-backend/cls_cps/repository_builder.py:207-220 | a key other than those substitutes keeps its entry |
| `RepositoryProperties.AddSubstitutesWrites` | applications/cls-cad-backend/cls_cps/repository_builder.py:216-220 | each blacklisted slot ends with its substitute mapped to the slot's requires-role type |
| `RepositoryProperties.AddConfigurationKeys` | applications/cls-cad-backend/cls_cps/repository_builder.py:162-220 | one iteration adds exactly its writes: nothing when skipped, else its key and its substitutes |
| `RepositoryProperties.AddConfigurationKeeps` | applications/cls-cad-backend/cls_cps/repository_builder.py:162-220 | a key one iteration does not write keeps its entry, so a skipped configuration changes nothing |
| `RepositoryProperties.AddConfigurationStores` | applications/cls-cad-backend/cls_cps/repository_builder.py:192-205 | a retained configuration's iteration maps its key to its stored type |
| `RepositoryProperties.AddConfigurationSubstitute` | applications/cls-cad-backend/cls_cps/repository_builder.py:207-220 | a retained configuration's iteration writes the substitute of each blacklisted slot |
| `RepositoryProperties.AddConfigurationsKeys` | applications/cls-cad-backend/cls_cps/repository_builder.py:157-220 | the configuration loop keeps every old key and adds exactly the written ones |
| `RepositoryProperties.AddConfigurationsKeeps` | applications/cls-cad-backend/cls_cps/repository_builder.py:157-220 | a key the configuration loop does not write keeps its value |
| `RepositoryProperties.AddConfigurationPreservesSubstitute` | applications/cls-cad-backend/cls_cps/repository_builder.py:216-220 | an iteration never changes a substitute's entry once it is there |
| `RepositoryProperties.AddConfigurationsPreservesSubstitute` | applications/cls-cad-backend/cls_cps/repository_builder.py:157-220 | neither does the whole configuration loop |
| `RepositoryProperties.SubstituteEntryPersists` | applications/cls-cad-backend/cls_cps/repository_builder.py:207-220 | a substitute written for a retained configuration's slot is in the final repository, typed by the slot's requires-role type |
| `RepositoryProperties.RetainedConfigurationEntry` | applications/cls-cad-backend/cls_cps/repository_builder.py:192-205 | a retained configuration's key maps to its stored type at the end, unless a later configuration writes the same key |
| `RepositoryProperties.LaterWritesOfConfigurationKey` | applications/cls-cad-backend/cls_cps/repository_builder.py:192-205 | a later configuration writes that key if and only if it is retained and has the same key |
| `RepositoryProperties.SkippedConfigurationAddsNothing` | applications/cls-cad-backend/cls_cps/repository_builder.py:162-169 | Rule A: the configuration loop gives the same repository with or without a skipped configuration |
| `RepositoryProperties.PartAddedOnlyAdds` | applications/cls-cad-backend/cls_cps/repository_builder.py:192-220 | `add_part_to_repository` keeps every old key, adds exactly the written ones, and leaves every unwritten key's value unchanged |
| `RepositoryProperties.BlacklistedSlotGetsSubstitute` | applications/cls-cad-backend/cls_cps/repository_builder.py:207-220 | Rule B: a blacklisted slot of a retained configuration leaves its substitute typed by the slot's requires-role type |
| `RepositoryProperties.UnblacklistedWrites` | applications/cls-cad-backend/cls_cps/repository_builder.py:162-214 | without a blacklist a configuration is retained and writes only its own key |
| `RepositoryProperties.NoBlacklistStoresEveryConfiguration` | applications/cls-cad-backend/cls_cps/repository_builder.py:157-220 | without a blacklist the new keys are exactly the configuration keys; no configuration is skipped and no substitute is written |
| `RepositoryProperties.AllAddedKeys` | applications/cls-cad-backend/cls_cps/repository_builder.py:231-241 | the project's repository holds exactly the keys its parts write |
| `RepositoryProperties.EveryRetainedConfigurationIsStored` | applications/cls-cad-backend/cls_cps/repository_builder.py:231-241 | every retained configuration of every part has an entry in the project's repository |
| `RepositoryProperties.SubstituteExpansion` | applications/cls-cad-backend/cls_cps/repository_builder.py:13-29 | as written, expanding a substitute raises `KeyError('requiredJointOriginsInfo')`; as intended, it is a leaf |
| `RepositoryProperties.ConnectingSubstituteAsWritten` | applications/cls-cad-backend/cls_cps/repository_builder.py:13-29 | as written, expanding a configuration key with its slot's substitute as the first argument raises; as intended, the substitute's leaf is connected at that slot |
| `EndToEnd.SimpleWithoutBlacklist` | applications/cls-cad-backend/cls_cps/repository_builder.py:157-205 | slot `A` `{X}` and provided `B` `{Y}` without a blacklist give exactly one entry, typed `X -> Y` |
| `EndToEnd.SimpleWithBlacklist` | applications/cls-cad-backend/cls_cps/repository_builder.py:162-169 | the same part under blacklist `{Y}` gives an empty repository |
| `EndToEnd.ConnectorSlotGetsSubstitute` | applications/cls-cad-backend/cls_cps/repository_builder.py:207-220 | a slot whose filler must provide `{Y}` under blacklist `{Y}` gives the main entry plus a substitute typed `Y` |

## Left out

- The synthesis library's type algebra: `Type.intersect` is kept as the plain list it is given. Its simplifications and the real subtype algorithm are not modelled; the taxonomy is an arbitrary function value.
- `json.dumps`, `CLSEncoder` and Python `hash`:
  - A key's identity is its `info` value, so hash collisions are not modelled.
  - The hash of a type in a substitute's name is an arbitrary function `TypeHash`.
- `get_all_parts_for_project` is database I/O: the project's parts are an input sequence.
- `combine_motions` is not part of this model: it is an arbitrary function `MotionCombiner`.
- `connect_uuid` is accepted and never read, so it is not modelled.
- `Part.__repr__` and `Part.__str__` are display helpers and are left out.
- Partial updates on an exception: a call that raises part-way leaves the earlier writes in the dict. The preconditions exclude such calls instead.
- The repository `dict` keeps insertion order in Python; the model's `map<Part, Type>` does not, so the order in which entries were first added is not modelled.
- `part["meta"]` is modelled with the five fields a substitute also carries. The order of `jointOrder` is not kept (it is a `map`).
- Every collection in the part dict, `requiresJointOrigins` and the role type lists included, is assumed to be a JSON-serialisable list in catalog order; the model takes each as a sequence. Were any of them a `set`, `json.dumps(self.info)` in `Part.__hash__` (`repository_builder.py:38`) would raise `TypeError` for every configuration key that embeds a joint origin (lines 192-205), and "declared order" would be set iteration order; that error path is not modelled.
- `propagated_types=None` and `[]` behave alike; both are the empty sequence.
- `RepositoryProperties.FetchKeysInDeclaredOrder`: states the key order only for distinct required ids. With a repeated id, the dict keeps the first occurrence's position, and no lemma states that order.
- `RepositoryProperties.EveryRetainedConfigurationIsStored`: states that the key is present, not its value, because a later part with the same key replaces the value.

## Findings

| source | as written | input that shows it | evidently intended | confidence | as-written member | corrected member |
|---|---|---|---|---|---|---|
| applications/cls-cad-backend/cls_cps/repository_builder.py:13-29 | `__call__` reads `info["requiredJointOriginsInfo"]` unconditionally and calls every uncalled `Part` argument with no arguments | a virtual substitute from `create_virtual_substitute_part` (lines 79-100), which has no `requiredJointOriginsInfo`: called alone, or passed uncalled as the first argument of its configuration's key | a substitute is a zero-argument marker that expands to the leaf `dict(info, count=1, connections={})` | medium, not executed | `Parts.CallAsWritten` (`RepositoryProperties.SubstituteExpansion`, `RepositoryProperties.ConnectingSubstituteAsWritten`) | `Parts.Call` (`Parts.SubstituteCallIsLeaf`, `Parts.CallAsWrittenAgrees`) |
