/**
 * The visibility decision of `createStoryPointsBubble` and the `if (points)` step of
 * `addStoryPointsToCard`. A bubble is described by its kind and the value it displays; the
 * element's text (`toString()`) and its styling are not part of this model.
 */
module Bubbles {
  import opened Wrappers
  import opened StoryPoints

  /** `story-points-bubble` (estimate) or `story-points-bubble story-points-used` (used). */
  datatype BubbleKind = EstimateBubble | UsedBubble

  datatype Bubble = Bubble(kind: BubbleKind, value: PointValue)

  /** What `createStoryPointsBubble` returns: a bare bubble, or the container span and its children. */
  datatype BubbleNode = Single(bubble: Bubble) | Container(children: seq<Bubble>)

  /** The bubbles a node displays, in order. */
  function Displayed(node: BubbleNode): seq<Bubble> {
    match node
    case Single(b) => [b]
    case Container(cs) => cs
  }

  /** `v !== 0 && v !== null`; `None` stands for `null`. The marker '?' and NaN pass. */
  predicate Shown(v: Option<PointValue>)
    ensures Shown(v) <==> v.Some? && !(v.value.Num? && v.value.r == 0.0)
  {
    v.Some? && v.value != Num(0.0)
  }

  method CreateStoryPointsBubble(estimate: Option<PointValue>, used: Option<PointValue>)
    returns (node: BubbleNode)
    ensures |Displayed(node)| == (if Shown(estimate) then 1 else 0) + (if Shown(used) then 1 else 0)
    ensures Shown(estimate) ==> Displayed(node)[0] == Bubble(EstimateBubble, estimate.value)
    ensures Shown(used) ==> Displayed(node)[|Displayed(node)| - 1] == Bubble(UsedBubble, used.value)
    ensures node.Single? <==> |Displayed(node)| == 1
  {
    var children: seq<Bubble> := [];
    if estimate.Some? && estimate.value != Num(0.0) {
      children := children + [Bubble(EstimateBubble, estimate.value)];
    }
    if used.Some? && used.value != Num(0.0) {
      children := children + [Bubble(UsedBubble, used.value)];
    }
    if |children| == 1 {
      node := Single(children[0]);
    } else {
      node := Container(children);
    }
  }

  /**
   * The bubble a card receives for its title: none when the title carries no points, otherwise
   * the node built from both fields (an empty container when both are `0`).
   */
  method BubbleForTitle(title: string) returns (node: Option<BubbleNode>)
    ensures node.None? <==> ParseStoryPoints(title).None?
    ensures node.Some? ==>
      var p := ParseStoryPoints(title).value;
      |Displayed(node.value)| == (if p.estimate != Num(0.0) then 1 else 0) + (if p.used != Num(0.0) then 1 else 0)
    ensures node.Some? ==>
      var p := ParseStoryPoints(title).value;
      p.estimate != Num(0.0) ==> Displayed(node.value)[0] == Bubble(EstimateBubble, p.estimate)
    ensures node.Some? ==>
      var p := ParseStoryPoints(title).value;
      p.used != Num(0.0) ==> Displayed(node.value)[|Displayed(node.value)| - 1] == Bubble(UsedBubble, p.used)
    ensures node.Some? ==> (node.value.Single? <==> |Displayed(node.value)| == 1)
  {
    var points := ParseStoryPoints(title);
    if points.Some? {
      var bubble := CreateStoryPointsBubble(Some(points.value.estimate), Some(points.value.used));
      node := Some(bubble);
    } else {
      node := None;
    }
  }
}
