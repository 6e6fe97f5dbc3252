/** The two stock opacity transitions a view can be given. */
module Transitions {
  import opened Exceptions
  import opened Animation
  import Names

  datatype Transition = OpacityTo1 | OpacityTo0

  /** The constants in declaration order. */
  const Values: seq<Transition> := [OpacityTo1, OpacityTo0]

  function TypeName(t: Transition): string
  {
    match t
    case OpacityTo1 => "OPACITY_TO_1"
    case OpacityTo0 => "OPACITY_TO_0"
  }

  /** The first constant whose type name equals `name`; None (null) for any other string. */
  function FromTypeName(name: string): (r: Option<Transition>)
    ensures r.Some? ==> TypeName(r.value) == name
    ensures r.None? <==> name != "OPACITY_TO_1" && name != "OPACITY_TO_0"
  {
    var r := Names.FindByName(Values, TypeName, name);
    assert TypeName(Values[0]) == "OPACITY_TO_1" && TypeName(Values[1]) == "OPACITY_TO_0";
    r
  }

  lemma FromTypeNameRoundTrip(t: Transition)
    ensures FromTypeName(TypeName(t)) == Some(t)
  {
    assert t == Values[0] || t == Values[1];
    Names.FindOwnName(Values, TypeName, t);
  }

  /** The opacity a transition starts from. */
  function StartOpacity(t: Transition): real
  {
    match t
    case OpacityTo1 => 0.0
    case OpacityTo0 => 1.0
  }

  /** Sets `node`'s opacity to the transition's starting value and returns the two key
      frames that ramp it from there to the opposite value over `ms` milliseconds. A
      negative duration is refused by the toolkit's key frame, after the opacity is set. */
  method ToKeyFrames(node: Node, t: Transition, ms: int) returns (outcome: Outcome, l: seq<KeyFrame>)
    modifies node
    ensures node.opacity == StartOpacity(t)
    ensures ms < 0 ==> outcome == Thrown(IllegalArgument) && l == []
    ensures ms >= 0 ==> outcome == Normal && |l| == 2
    ensures ms >= 0 ==> l[0] == KeyFrame(0, node, node.opacity) && l[1] == KeyFrame(ms, node, 1.0 - node.opacity)
    ensures ms >= 0 && t == OpacityTo1 ==> l == [KeyFrame(0, node, 0.0), KeyFrame(ms, node, 1.0)]
    ensures ms >= 0 && t == OpacityTo0 ==> l == [KeyFrame(0, node, 1.0), KeyFrame(ms, node, 0.0)]
  {
    outcome, l := Normal, [];
    match t
    case OpacityTo1 =>
      node.opacity := 0.0;
      l := l + [KeyFrame(0, node, 0.0)];
      if ms < 0 {
        return Thrown(IllegalArgument), [];
      }
      l := l + [KeyFrame(ms, node, 1.0)];
    case OpacityTo0 =>
      node.opacity := 1.0;
      l := l + [KeyFrame(0, node, 1.0)];
      if ms < 0 {
        return Thrown(IllegalArgument), [];
      }
      l := l + [KeyFrame(ms, node, 0.0)];
  }
}
