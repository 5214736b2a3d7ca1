/** Arrow chains (`multiarrow_from_types`, `multiarrow_to_self`) and the propagated-type overloads. */
module Multiarrows {
  import opened TypeAlgebra

  /** Reference definition: the right-associated chain t1 -> (t2 -> ... -> tn). */
  function Chain(ts: seq<Type>): Type
    requires |ts| > 0
  {
    if |ts| == 1 then ts[0] else Arrow(ts[0], Chain(ts[1..]))
  }

  /** `reversed(s)` */
  function Reversed(s: seq<Type>): (r: seq<Type>)
    ensures |r| == |s|
    ensures forall i :: 0 <= i < |s| ==> r[i] == s[|s| - 1 - i]
  {
    if s == [] then [] else [s[|s| - 1]] + Reversed(s[..|s| - 1])
  }

  /** `reduce(lambda a, b: Arrow(b, a), rest, acc)`: a left fold. */
  function ArrowFold(acc: Type, rest: seq<Type>): (r: Type)
    ensures rest == [] ==> r == acc
    ensures rest != [] ==> r.Arrow? && r.src == rest[|rest| - 1]
    decreases |rest|
  {
    if rest == [] then acc else ArrowFold(Arrow(rest[0], acc), rest[1..])
  }

  /**
   * `multiarrow_from_types`: `reduce` over the reversed list, seeded with its
   * first element (the list's last). An empty list makes `reduce` raise.
   */
  function MultiarrowFromTypes(ts: seq<Type>): (t: Type)
    requires |ts| > 0
    ensures |ts| == 1 ==> t == ts[0]
    ensures |ts| > 1 ==> t.Arrow? && t.src == ts[0]
  {
    var r := Reversed(ts);
    ArrowFold(r[0], r[1..])
  }

  /** `multiarrow_to_self(t, n)`: the chain of `n` copies of `t`. */
  function MultiarrowToSelf(t: Type, length: nat): (r: Type)
    requires length > 0
    ensures length == 1 ==> r == t
    ensures length > 1 ==> r.Arrow? && r.src == t
  {
    MultiarrowFromTypes(seq(length, _ => t))
  }

  /**
   * Reads the `n` positions of an `n`-ary chain back from a type: the
   * domains of its first `n - 1` arrows and the codomain left over.
   */
  function Spine(t: Type, n: nat): seq<Type>
    requires n > 0
  {
    if n == 1 then [t]
    else match t
      case Arrow(a, b) => [a] + Spine(b, n - 1)
      case _ => []
  }

  lemma {:induction false} FoldBuildsChain(prefix: seq<Type>, suffix: seq<Type>)
    requires |suffix| > 0
    ensures ArrowFold(Chain(suffix), Reversed(prefix)) == Chain(prefix + suffix)
    decreases |prefix|
  {
    if prefix != [] {
      var n := |prefix|;
      var init, x := prefix[..n - 1], prefix[n - 1];
      assert Reversed(prefix) == [x] + Reversed(init);
      calc {
        ArrowFold(Chain(suffix), Reversed(prefix));
        ArrowFold(Arrow(x, Chain(suffix)), Reversed(init));
        { assert ([x] + suffix)[1..] == suffix; }
        ArrowFold(Chain([x] + suffix), Reversed(init));
        { FoldBuildsChain(init, [x] + suffix); }
        Chain(init + ([x] + suffix));
        { assert init + ([x] + suffix) == prefix + suffix; }
        Chain(prefix + suffix);
      }
    } else {
      assert prefix + suffix == suffix;
    }
  }

  /** The `reduce` builds the right-associated chain: declared order is kept, the last type is the codomain. */
  lemma MultiarrowIsChain(ts: seq<Type>)
    requires |ts| > 0
    ensures MultiarrowFromTypes(ts) == Chain(ts)
  {
    var n := |ts|;
    var r := Reversed(ts);
    assert r[1..] == Reversed(ts[..n - 1]);
    FoldBuildsChain(ts[..n - 1], [ts[n - 1]]);
    assert ts[..n - 1] + [ts[n - 1]] == ts;
  }

  /** Reading a chain back yields the list it was built from. */
  lemma {:induction false} SpineOfChain(ts: seq<Type>)
    requires |ts| > 0
    ensures Spine(Chain(ts), |ts|) == ts
    decreases |ts|
  {
    if |ts| > 1 {
      SpineOfChain(ts[1..]);
    }
  }

  /**
   * `multiarrow_from_types` keeps every position: a singleton is its own
   * element with no arrow, and two lists of one length give the same type
   * only when they are equal, so reordering arguments changes the type.
   */
  lemma MultiarrowPositions(ts: seq<Type>, us: seq<Type>)
    requires |ts| > 0 && |us| == |ts|
    ensures Spine(MultiarrowFromTypes(ts), |ts|) == ts
    ensures |ts| == 1 ==> MultiarrowFromTypes(ts) == ts[0]
    ensures MultiarrowFromTypes(ts) == MultiarrowFromTypes(us) <==> ts == us
  {
    MultiarrowIsChain(ts);
    MultiarrowIsChain(us);
    SpineOfChain(ts);
    SpineOfChain(us);
  }

  /** `multiarrow_to_self(t, n)` holds `t` at each of its `n` positions. */
  lemma MultiarrowToSelfPositions(t: Type, length: nat)
    requires length > 0
    ensures Spine(MultiarrowToSelf(t, length), length) == seq(length, _ => t)
  {
    MultiarrowPositions(seq(length, _ => t), seq(length, _ => t));
  }

  /**
   * The list the loop body of `intersect_all_multiarrows_containing_type`
   * builds for position `x`: `[Omega()] * length`, then slot `x` and the
   * last slot overwritten with `t`.
   */
  function OverloadSlots(t: Type, length: nat, x: nat): seq<Type>
    requires x < length
  {
    seq(length, _ => Omega)[x := t][length - 1 := t]
  }

  /** `range(0, length - 1)` has this many positions. */
  function OverloadCount(length: nat): nat
  {
    if length == 0 then 0 else length - 1
  }

  /** Specification of `intersect_all_multiarrows_containing_type`. */
  function PropagationOverload(t: Type, length: nat): Type
  {
    Intersect(seq(OverloadCount(length), x requires 0 <= x < OverloadCount(length) =>
      MultiarrowFromTypes(OverloadSlots(t, length, x))))
  }

  /**
   * The overload for a propagated type `t` intersects exactly `length - 1`
   * chains of `length` positions; chain `x` holds `t` at position `x` and at
   * the codomain and `Omega` everywhere else.
   */
  lemma PropagationOverloadShape(t: Type, length: nat)
    ensures PropagationOverload(t, length).Intersect?
    ensures |PropagationOverload(t, length).members| == OverloadCount(length)
    ensures forall x :: 0 <= x < OverloadCount(length) ==>
      Spine(PropagationOverload(t, length).members[x], length) ==
        seq(length, i => if i == x || i == length - 1 then t else Omega)
  {
    var ms := PropagationOverload(t, length).members;
    forall x | 0 <= x < OverloadCount(length)
      ensures Spine(ms[x], length) == seq(length, i => if i == x || i == length - 1 then t else Omega)
    {
      var slots := OverloadSlots(t, length, x);
      MultiarrowPositions(slots, slots);
      assert slots == seq(length, i => if i == x || i == length - 1 then t else Omega);
    }
  }

  /** `intersect_all_multiarrows_containing_type`: builds the chains one position at a time. */
  method IntersectAllMultiarrowsContainingType(t: Type, length: nat) returns (r: Type)
    ensures r == PropagationOverload(t, length)
  {
    var result: seq<Type> := [];
    var x := 0;
    while x + 1 < length
      invariant x <= OverloadCount(length)
      invariant |result| == x
      invariant forall k :: 0 <= k < x ==> result[k] == MultiarrowFromTypes(OverloadSlots(t, length, k))
    {
      var slots := new Type[length](_ => Omega);
      slots[x] := t;
      slots[length - 1] := t;
      assert slots[..] == OverloadSlots(t, length, x);
      result := result + [MultiarrowFromTypes(slots[..])];
      x := x + 1;
    }
    r := Intersect(result);
  }
}
