/**
 * The external type algebra of the synthesis library, as plain terms.
 * `Intersect` records the list handed to `Type.intersect` as it is: the
 * simplifications the library may perform on it are not part of this model.
 */
module TypeAlgebra {
  import opened Wrappers

  type TypeName = string

  datatype Type =
    | Omega
    | Constructor(name: TypeName)
    | Arrow(src: Type, tgt: Type)
    | Intersect(members: seq<Type>)

  /** The injected subtype checker (`taxonomy.check_subtype`). */
  type Taxonomy = (Type, Type) -> bool

  /** `Type.intersect([Constructor(n) for n in names])`. */
  function IntersectNames(names: seq<TypeName>): Type
  {
    Intersect(seq(|names|, i requires 0 <= i < |names| => Constructor(names[i])))
  }

  /** Reads the names back from an intersection of constructors. */
  function NamesOf(t: Type): Option<seq<TypeName>>
  {
    match t
    case Intersect(ms) =>
      if forall i :: 0 <= i < |ms| ==> ms[i].Constructor? then
        Some(seq(|ms|, i requires 0 <= i < |ms| => ms[i].name))
      else None
    case _ => None
  }

  /** Rendering a list of names is lossless: the names, in order, can be read back. */
  lemma NamesRoundTrip(names: seq<TypeName>)
    ensures NamesOf(IntersectNames(names)) == Some(names)
  {
    var ms := IntersectNames(names).members;
    assert forall i :: 0 <= i < |ms| ==> ms[i] == Constructor(names[i]);
    assert seq(|ms|, i requires 0 <= i < |ms| => ms[i].name) == names;
  }

  /** Hence two role or blacklist name lists render to the same type only when they are equal. */
  lemma IntersectNamesInjective(a: seq<TypeName>, b: seq<TypeName>)
    ensures IntersectNames(a) == IntersectNames(b) <==> a == b
  {
    if IntersectNames(a) == IntersectNames(b) {
      NamesRoundTrip(a);
      NamesRoundTrip(b);
    }
  }
}
