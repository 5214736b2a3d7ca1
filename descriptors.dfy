/**
 * The catalog records the builder reads: a part descriptor with its joint
 * origins (attachment points) and its configurations (legal usages).
 */
module Descriptors {
  import opened TypeAlgebra

  type Uuid = string

  /** The two roles of a joint origin (`Role.requires`, `Role.provides`). */
  datatype Role = Requires | Provides

  /**
   * One entry of `part["jointOrigins"]`. The two roles (the keys `requires`
   * and `provides`, renamed because both are Dafny keywords) are the capability
   * type names in the order the catalog lists them; `count` is the slot's
   * multiplicity and `motion` its motion class.
   */
  datatype JointOrigin = JointOrigin(
    requiresTypes: seq<TypeName>,
    providesTypes: seq<TypeName>,
    motion: string,
    count: nat)
  {
    /** `joint_origin[role]` */
    function RoleTypes(role: Role): seq<TypeName>
    {
      match role
      case Requires => requiresTypes
      case Provides => providesTypes
    }
  }

  /** One entry of `part["configurations"]`: required ids in declared order, one provided id. */
  datatype Configuration = Configuration(requiresJointOrigins: seq<Uuid>, providesJointOrigin: Uuid)

  /** `part["meta"]`: the identity metadata copied into every key built from the part. */
  datatype Meta = Meta(
    name: string,
    forgeDocumentId: string,
    forgeFolderId: string,
    forgeProjectId: string,
    jointOrder: map<string, string>)

  datatype PartDescriptor = PartDescriptor(
    meta: Meta,
    jointOrigins: map<Uuid, JointOrigin>,
    configurations: seq<Configuration>)
}
