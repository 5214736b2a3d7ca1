/**
 * The repository key (`Part`) and its expansion into an assembly payload
 * (`Part.__call__`).
 */
module Parts {
  import opened Wrappers
  import opened Descriptors
  import opened PyDict

  /**
   * The `info` dictionary of a key. Configuration keys carry
   * `requiredJointOriginsInfo`; virtual substitute keys do not (`None`).
   */
  datatype Info = Info(
    meta: Meta,
    requiredJointOriginsInfo: Option<Dict<Uuid, JointOrigin>>,
    providesUuid: Uuid,
    motion: string)

  /**
   * A content-addressed key. `__hash__` is the hash of `json.dumps(info)`
   * and `__eq__` compares hashes; the serialisation is modelled by the
   * `info` value itself, so hash collisions are not modelled.
   */
  datatype Part = Part(info: Info)
  {
    /** `__hash__`: determined by the serialised content alone. */
    function Hash(): Info
    {
      info
    }

    /** `__eq__`: two keys are equal exactly when they are the same value. */
    predicate Equals(other: Part): (b: bool)
      ensures b <==> this == other
    {
      Hash() == other.Hash()
    }
  }

  /** Keys with equal content are equal, hash alike, and so are one repository entry. */
  lemma EqualsIsContentEquality(p: Part, q: Part)
    ensures p.Equals(q) <==> p.info == q.info
    ensures p.Equals(q) <==> p == q
    ensures p.Equals(q) ==> p.Hash() == q.Hash()
  {
  }

  /** The dictionary `__call__` returns: `dict(info, count=..., connections=...)`. */
  datatype Payload = Payload(info: Info, count: nat, connections: Dict<Uuid, Payload>)

  /** An argument of `__call__`: an uncalled `Part` or an already built payload. */
  datatype Arg = PartArg(part: Part) | PayloadArg(payload: Payload)

  datatype Error = MissingKey(key: string)

  /** `combine_motions`, not part of this model. */
  type MotionCombiner = (string, string) -> string

  const RequiredJointOriginsInfoKey := "requiredJointOriginsInfo"

  function Min(a: nat, b: nat): nat { if a <= b then a else b }

  /** `dict(child, count=slot["count"], motion=combine_motions(parent motion, slot["motion"]))` */
  function Connect(child: Payload, slot: JointOrigin, parentMotion: string, combine: MotionCombiner): Payload
  {
    Payload(child.info.(motion := combine(parentMotion, slot.motion)), slot.count, child.connections)
  }

  /**
   * `required_part()` as written: an uncalled `Part` argument is called with
   * no arguments, which still reads `info["requiredJointOriginsInfo"]`.
   */
  function CalledWithoutArgumentsAsWritten(q: Part): Result<Payload, Error>
  {
    if q.info.requiredJointOriginsInfo.None? then Err(MissingKey(RequiredJointOriginsInfoKey))
    else Ok(Payload(q.info, 1, []))
  }

  function ChildAsWritten(arg: Arg): Result<Payload, Error>
  {
    match arg
    case PartArg(q) => CalledWithoutArgumentsAsWritten(q)
    case PayloadArg(d) => Ok(d)
  }

  /**
   * `Part.__call__` as written: it reads `info["requiredJointOriginsInfo"]`
   * eagerly, so a key without it raises `KeyError`, and so does every
   * uncalled `Part` argument without it. Pairs are formed by `zip`, which
   * stops at the shorter side.
   */
  function CallAsWritten(p: Part, args: seq<Arg>, combine: MotionCombiner): (r: Result<Payload, Error>)
    ensures p.info.requiredJointOriginsInfo.None? ==> r.Err?
    ensures r.Err? ==> r.error == MissingKey(RequiredJointOriginsInfoKey)
    ensures r.Ok? ==>
      && r.value.info == p.info && r.value.count == 1
      && |r.value.connections| == Min(|p.info.requiredJointOriginsInfo.value|, |args|)
      && forall i :: 0 <= i < |r.value.connections| ==>
           r.value.connections[i].0 == p.info.requiredJointOriginsInfo.value[i].0
  {
    match p.info.requiredJointOriginsInfo
    case None => Err(MissingKey(RequiredJointOriginsInfoKey))
    case Some(required) =>
      var n := Min(|required|, |args|);
      if exists i :: 0 <= i < n && ChildAsWritten(args[i]).Err? then Err(MissingKey(RequiredJointOriginsInfoKey))
      else
        var connections := seq(n, i requires 0 <= i < n =>
          (required[i].0, Connect(ChildAsWritten(args[i]).value, required[i].1, p.info.motion, combine)));
        assert DistinctKeys(connections) by {
          assert forall i :: 0 <= i < n ==> connections[i].0 == required[i].0;
        }
        Ok(Payload(p.info, 1, connections))
  }

  /** A call with no arguments is exactly what an uncalled `Part` argument turns into. */
  lemma CalledWithoutArgumentsIsCall(q: Part, combine: MotionCombiner)
    ensures CalledWithoutArgumentsAsWritten(q) == CallAsWritten(q, [], combine)
  {
    if q.info.requiredJointOriginsInfo.Some? {
      var r := CallAsWritten(q, [], combine);
      assert r.Ok? && |r.value.connections| == 0;
    }
  }

  /** The slot list a key expands over; a key without one has no slots. */
  function RequiredOrEmpty(info: Info): Dict<Uuid, JointOrigin>
  {
    info.requiredJointOriginsInfo.GetOr([])
  }

  /** `required_part()` as intended: a leaf payload. */
  function CalledWithoutArguments(q: Part): Payload
  {
    Payload(q.info, 1, [])
  }

  function Child(arg: Arg): Payload
  {
    match arg
    case PartArg(q) => CalledWithoutArguments(q)
    case PayloadArg(d) => d
  }

  /**
   * `Part.__call__` as intended: a key without `requiredJointOriginsInfo`
   * (a virtual substitute) expands to a leaf payload instead of failing.
   * The payload is `info` plus `count = 1`, and one connection per zipped
   * pair of slot and argument, in slot order, carrying the argument's
   * payload with the slot's count and the combined motion of the parent
   * and the slot.
   */
  function Call(p: Part, args: seq<Arg>, combine: MotionCombiner): (r: Payload)
    ensures r.info == p.info && r.count == 1
    ensures |r.connections| == Min(|RequiredOrEmpty(p.info)|, |args|)
    ensures forall i :: 0 <= i < |r.connections| ==>
      var slot := RequiredOrEmpty(p.info)[i];
      && r.connections[i].0 == slot.0
      && r.connections[i].1.count == slot.1.count
      && r.connections[i].1.info == Child(args[i]).info.(motion := combine(p.info.motion, slot.1.motion))
      && r.connections[i].1.connections == Child(args[i]).connections
  {
    var required := RequiredOrEmpty(p.info);
    var n := Min(|required|, |args|);
    var connections := seq(n, i requires 0 <= i < n =>
      (required[i].0, Connect(Child(args[i]), required[i].1, p.info.motion, combine)));
    assert DistinctKeys(connections) by {
      assert forall i :: 0 <= i < n ==> connections[i].0 == required[i].0;
    }
    Payload(p.info, 1, connections)
  }

  /** A key without slots, such as a virtual substitute, expands to a leaf whatever it is given. */
  lemma SubstituteCallIsLeaf(p: Part, args: seq<Arg>, combine: MotionCombiner)
    requires p.info.requiredJointOriginsInfo.None?
    ensures Call(p, args, combine) == Payload(p.info, 1, [])
  {
  }

  /** The two expansions agree wherever the written one succeeds. */
  lemma CallAsWrittenAgrees(p: Part, args: seq<Arg>, combine: MotionCombiner)
    ensures CallAsWritten(p, args, combine).Ok? ==> CallAsWritten(p, args, combine).value == Call(p, args, combine)
  {
    if CallAsWritten(p, args, combine).Ok? {
      var n := Min(|p.info.requiredJointOriginsInfo.value|, |args|);
      assert forall i :: 0 <= i < n ==> ChildAsWritten(args[i]) == Ok(Child(args[i]));
    }
  }

  /**
   * The written expansion fails exactly when the key, or an uncalled `Part`
   * argument that `zip` pairs with a slot, has no `requiredJointOriginsInfo`.
   */
  lemma CallAsWrittenFailsExactly(p: Part, args: seq<Arg>, combine: MotionCombiner)
    ensures CallAsWritten(p, args, combine).Err? <==>
      || p.info.requiredJointOriginsInfo.None?
      || exists i :: 0 <= i < Min(|p.info.requiredJointOriginsInfo.value|, |args|) &&
           args[i].PartArg? && args[i].part.info.requiredJointOriginsInfo.None?
  {
    if p.info.requiredJointOriginsInfo.Some? {
      var n := Min(|p.info.requiredJointOriginsInfo.value|, |args|);
      assert forall i :: 0 <= i < n ==>
        (ChildAsWritten(args[i]).Err? <==> args[i].PartArg? && args[i].part.info.requiredJointOriginsInfo.None?);
    }
  }
}
