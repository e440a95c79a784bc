/** Choosing the level a click on the outermost trackpad goes to: the deepest
    level whose whole chain of overlap tests holds. */
module Click {
  import opened Trackpad
  import opened Propagation

  /** The deepest level reachable from level i through holding tests. */
  function TargetFrom(ls: seq<Level>, i: nat): (k: nat)
    requires i < |ls|
    ensures i <= k < |ls|
    ensures forall j :: i <= j < k ==> OverChild(ls, j)
    ensures k + 1 < |ls| ==> !OverChild(ls, k)
    decreases |ls| - i
  {
    if i + 1 < |ls| && OverChild(ls, i) then TargetFrom(ls, i + 1) else i
  }

  /** The level a click is dispatched at: every test above it holds, and its
      own test (when it has a child) does not. */
  function ClickTarget(ls: seq<Level>): (k: nat)
    requires |ls| >= 1
    ensures k < |ls|
    ensures forall j :: 0 <= j < k ==> OverChild(ls, j)
    ensures k + 1 < |ls| ==> !OverChild(ls, k)
  {
    TargetFrom(ls, 0)
  }

  /** The target is the deepest level whose chain of tests holds. */
  lemma ClickTargetIsDeepest(ls: seq<Level>, k: nat)
    requires k < |ls|
    requires forall j :: 0 <= j < k ==> OverChild(ls, j)
    ensures k <= ClickTarget(ls)
  {
  }

  /** Exactly one level satisfies the description of the target. */
  lemma ClickTargetIsUnique(ls: seq<Level>, k: nat)
    requires k < |ls|
    requires forall j :: 0 <= j < k ==> OverChild(ls, j)
    requires k + 1 < |ls| ==> !OverChild(ls, k)
    ensures k == ClickTarget(ls)
  {
    ClickTargetIsDeepest(ls, k);
  }

  /** The click handler as written for four levels: an if/else chain from the
      deepest level up to the parent. */
  function ClickTargetFourLevels(parentOverChild: bool, childOverGrandchild: bool,
                                 grandchildOverGreatGrandchild: bool): (k: nat)
    ensures k <= 3
    ensures k >= 1 <==> parentOverChild
    ensures k >= 2 <==> parentOverChild && childOverGrandchild
    ensures k == 3 <==> parentOverChild && childOverGrandchild && grandchildOverGreatGrandchild
  {
    if parentOverChild && childOverGrandchild && grandchildOverGreatGrandchild then 3
    else if parentOverChild && childOverGrandchild then 2
    else if parentOverChild then 1
    else 0
  }

  /** The general target agrees with the four-level if/else chain. */
  lemma FourLevelClickAgrees(ls: seq<Level>)
    requires |ls| == 4
    ensures ClickTarget(ls) == ClickTargetFourLevels(OverChild(ls, 0), OverChild(ls, 1), OverChild(ls, 2))
  {
    var k := ClickTargetFourLevels(OverChild(ls, 0), OverChild(ls, 1), OverChild(ls, 2));
    ClickTargetIsUnique(ls, k);
  }

  /** A click right after a move goes to the deepest level that move reached. */
  lemma ClickAfterMoveHitsDeepestMoved(pre: seq<Level>, dx: real, dy: real)
    requires ChainWellFormed(pre) && |pre| >= 1
    ensures ClickTarget(Pass(pre, dx, dy)) == Depth(pre, dx, dy) - 1
  {
    var post := Pass(pre, dx, dy);
    var d := Depth(pre, dx, dy);
    DepthFromFacts(pre, dx, dy, 0);
    forall j | 0 <= j < d && j + 1 < |pre|
      ensures OverChild(post, j) == MovedOverChild(pre, dx, dy, j)
    {
      PassTestIsMovedTest(pre, dx, dy, j);
    }
    ClickTargetIsUnique(post, d - 1);
  }

  /** Under a zero move, the pass reaches exactly the level a click would go to. */
  lemma ZeroMoveDepthIsClickTarget(pre: seq<Level>)
    requires ChainWellFormed(pre) && |pre| >= 1 && ChainInBounds(pre)
    ensures Depth(pre, 0.0, 0.0) == ClickTarget(pre) + 1
  {
    ZeroMoveFixesChain(pre);
    ClickAfterMoveHitsDeepestMoved(pre, 0.0, 0.0);
  }

  /** A zero move after any move reaches exactly as deep as that move did. */
  lemma ZeroMoveKeepsDepth(pre: seq<Level>, dx: real, dy: real)
    requires ChainWellFormed(pre) && |pre| >= 1 && ChainInBounds(pre)
    ensures Depth(Pass(pre, dx, dy), 0.0, 0.0) == Depth(pre, dx, dy)
  {
    PassKeepsInBounds(pre, dx, dy);
    ZeroMoveDepthIsClickTarget(Pass(pre, dx, dy));
    ClickAfterMoveHitsDeepestMoved(pre, dx, dy);
  }
}
