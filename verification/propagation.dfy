/** The mouse-move pass over a chain of levels, parent first, as a function of
    the chain before the move. The parent always moves; level i+1 moves only
    while every overlap test of levels 0..i has held, each test taken with
    level i at its position after its own move in this pass; every level that
    moves receives the same raw (dx, dy). */
module Propagation {
  import opened Geometry
  import opened Trackpad

  predicate ChainWellFormed(ls: seq<Level>) {
    forall i :: 0 <= i < |ls| ==> WellFormed(ls[i].layout)
  }

  predicate ChainInBounds(ls: seq<Level>) {
    forall i :: 0 <= i < |ls| ==> InBounds(ls[i])
  }

  /** Overlap test i: the cursor of level i over the trackpad of level i+1. */
  predicate OverChild(ls: seq<Level>, i: nat)
    requires i + 1 < |ls|
  {
    IsOver(CursorRect(ls[i]), ls[i + 1].layout.trackpad)
  }

  /** Overlap test i taken with level i already moved by (dx, dy). */
  predicate MovedOverChild(pre: seq<Level>, dx: real, dy: real, i: nat)
    requires ChainWellFormed(pre) && i + 1 < |pre|
  {
    IsOver(CursorRect(Moved(pre[i], dx, dy)), pre[i + 1].layout.trackpad)
  }

  /** How many levels, counted from level i which is active, the pass moves. */
  function DepthFrom(pre: seq<Level>, dx: real, dy: real, i: nat): (d: nat)
    requires ChainWellFormed(pre) && i < |pre|
    ensures i < d <= |pre|
    decreases |pre| - i
  {
    if i + 1 < |pre| && MovedOverChild(pre, dx, dy, i) then DepthFrom(pre, dx, dy, i + 1) else i + 1
  }

  /** The activation depth of a move: the number of levels it moves. */
  function Depth(pre: seq<Level>, dx: real, dy: real): (d: nat)
    requires ChainWellFormed(pre) && |pre| >= 1
    ensures 1 <= d <= |pre|
  {
    DepthFrom(pre, dx, dy, 0)
  }

  predicate Active(pre: seq<Level>, dx: real, dy: real, i: nat)
    requires ChainWellFormed(pre) && |pre| >= 1
  {
    i < Depth(pre, dx, dy)
  }

  /** One propagation pass while the pointer is over the outermost trackpad. */
  function Pass(pre: seq<Level>, dx: real, dy: real): (post: seq<Level>)
    requires ChainWellFormed(pre) && |pre| >= 1
    ensures |post| == |pre| && ChainWellFormed(post)
    ensures post[0] == Moved(pre[0], dx, dy)
    ensures forall j :: 0 <= j < |pre| ==> post[j] == pre[j] || post[j] == Moved(pre[j], dx, dy)
  {
    var d := Depth(pre, dx, dy);
    seq(|pre|, j requires 0 <= j < |pre| => if j < d then Moved(pre[j], dx, dy) else pre[j])
  }

  /** The mouse-move handler: nothing moves unless the pointer is over the
      outermost trackpad. */
  function OnMouseMove(pre: seq<Level>, gated: bool, dx: real, dy: real): (post: seq<Level>)
    requires ChainWellFormed(pre) && |pre| >= 1
    ensures !gated ==> post == pre
    ensures |post| == |pre| && (gated ==> post[0] == Moved(pre[0], dx, dy))
  {
    if gated then Pass(pre, dx, dy) else pre
  }

  /** The tests that decide the depth, read off the recursion. */
  lemma {:induction false} DepthFromFacts(pre: seq<Level>, dx: real, dy: real, i: nat)
    requires ChainWellFormed(pre) && i < |pre|
    ensures forall j :: i <= j < DepthFrom(pre, dx, dy, i) - 1 ==> MovedOverChild(pre, dx, dy, j)
    ensures DepthFrom(pre, dx, dy, i) < |pre| ==> !MovedOverChild(pre, dx, dy, DepthFrom(pre, dx, dy, i) - 1)
    decreases |pre| - i
  {
    if i + 1 < |pre| && MovedOverChild(pre, dx, dy, i) {
      DepthFromFacts(pre, dx, dy, i + 1);
    }
  }

  /** A chain that is moved below the depth and untouched from it on is the
      chain the pass produces. */
  lemma PassByDepth(pre: seq<Level>, dx: real, dy: real, post: seq<Level>)
    requires ChainWellFormed(pre) && |pre| >= 1 && |post| == |pre|
    requires forall j :: 0 <= j < Depth(pre, dx, dy) ==> post[j] == Moved(pre[j], dx, dy)
    requires forall j :: Depth(pre, dx, dy) <= j < |pre| ==> post[j] == pre[j]
    ensures post == Pass(pre, dx, dy)
  {
  }

  /** In the chain after the pass, test j for an active level j reads the
      moved position, so it is the test the pass made. */
  lemma PassTestIsMovedTest(pre: seq<Level>, dx: real, dy: real, j: nat)
    requires ChainWellFormed(pre) && j + 1 < |pre| && Active(pre, dx, dy, j)
    ensures OverChild(Pass(pre, dx, dy), j) == MovedOverChild(pre, dx, dy, j)
  {
    var post := Pass(pre, dx, dy);
    assert post[j] == Moved(pre[j], dx, dy);
    assert post[j + 1].layout == pre[j + 1].layout;
  }

  /** Activation is a strict prefix: level i+1 moves if and only if every
      overlap test of levels 0..i holds, each evaluated on the chain as the
      pass leaves it (a level's own move comes before its test). */
  lemma ActivationCondition(pre: seq<Level>, dx: real, dy: real, i: nat)
    requires ChainWellFormed(pre) && i + 1 < |pre|
    ensures Active(pre, dx, dy, i + 1) <==> forall j :: 0 <= j <= i ==> OverChild(Pass(pre, dx, dy), j)
  {
    var post := Pass(pre, dx, dy);
    var d := Depth(pre, dx, dy);
    DepthFromFacts(pre, dx, dy, 0);
    forall j | 0 <= j < d && j + 1 < |pre|
      ensures OverChild(post, j) == MovedOverChild(pre, dx, dy, j)
    {
      PassTestIsMovedTest(pre, dx, dy, j);
    }
    if !Active(pre, dx, dy, i + 1) {
      assert d <= i + 1 && d < |pre|;
      assert !OverChild(post, d - 1);
    }
  }

  /** No skipping a level: once a test fails, no deeper level moves. */
  lemma StopsAtFirstMiss(pre: seq<Level>, dx: real, dy: real, i: nat)
    requires ChainWellFormed(pre) && i + 1 < |pre|
    requires !OverChild(Pass(pre, dx, dy), i)
    ensures forall j :: i < j < |pre| ==> Pass(pre, dx, dy)[j] == pre[j]
  {
    ActivationCondition(pre, dx, dy, i);
  }

  /** The pass keeps every cursor inside its screen. */
  lemma PassKeepsInBounds(pre: seq<Level>, dx: real, dy: real)
    requires ChainWellFormed(pre) && |pre| >= 1 && ChainInBounds(pre)
    ensures ChainInBounds(Pass(pre, dx, dy))
  {
  }

  /** A zero move leaves an in-bounds chain exactly as it is. */
  lemma ZeroMoveFixesChain(pre: seq<Level>)
    requires ChainWellFormed(pre) && |pre| >= 1 && ChainInBounds(pre)
    ensures Pass(pre, 0.0, 0.0) == pre
  {
    var post := Pass(pre, 0.0, 0.0);
    forall j | 0 <= j < |pre| ensures post[j] == pre[j] {
      ZeroMoveIsIdentity(pre[j]);
    }
  }

  /** A zero move after any move leaves every position where that move put it. */
  lemma ZeroMoveAfterPass(pre: seq<Level>, dx: real, dy: real)
    requires ChainWellFormed(pre) && |pre| >= 1 && ChainInBounds(pre)
    ensures Pass(Pass(pre, dx, dy), 0.0, 0.0) == Pass(pre, dx, dy)
  {
    PassKeepsInBounds(pre, dx, dy);
    ZeroMoveFixesChain(Pass(pre, dx, dy));
  }

  /** Why each level gets the raw delta: with composed sensitivity, a level's
      unclamped displacement equals its parent's unclamped on-screen
      displacement scaled by the level's own ratio, as if the parent's cursor
      drove the nested trackpad directly. */
  lemma RawDeltaMatchesParentCursor(parent: Level, child: Level, dx: real)
    requires WellFormed(parent.layout) && WellFormed(child.layout)
    requires child.sensX == RatioX(child.layout) * parent.sensX
    requires 0.0 <= parent.x + dx * parent.sensX <= Width(parent.layout.screen)
    requires 0.0 <= child.x + dx * child.sensX <= Width(child.layout.screen)
    ensures Moved(child, dx, 0.0).x - child.x == (Moved(parent, dx, 0.0).x - parent.x) * RatioX(child.layout)
  {
    calc {
      Moved(child, dx, 0.0).x - child.x;
      dx * child.sensX;
      dx * (RatioX(child.layout) * parent.sensX);
      (dx * parent.sensX) * RatioX(child.layout);
      (Moved(parent, dx, 0.0).x - parent.x) * RatioX(child.layout);
    }
  }

  /** The handler as written for exactly four levels: move the parent, then
      each deeper level if all tests so far hold, each test read after the
      level above has been dealt with. */
  function MouseMoveFourLevels(ls: seq<Level>, dx: real, dy: real): (r: seq<Level>)
    requires ChainWellFormed(ls) && |ls| == 4
    ensures |r| == 4 && r[0] == Moved(ls[0], dx, dy)
    ensures forall j :: 0 <= j < 4 ==> r[j] == ls[j] || r[j] == Moved(ls[j], dx, dy)
  {
    var s1 := ls[0 := Moved(ls[0], dx, dy)];
    var parentOverChild := OverChild(s1, 0);
    var s2 := if parentOverChild then s1[1 := Moved(s1[1], dx, dy)] else s1;
    var childOverGrandchild := OverChild(s2, 1);
    var s3 := if parentOverChild && childOverGrandchild then s2[2 := Moved(s2[2], dx, dy)] else s2;
    var grandchildOverGreatGrandchild := OverChild(s3, 2);
    if parentOverChild && childOverGrandchild && grandchildOverGreatGrandchild
    then s3[3 := Moved(s3[3], dx, dy)] else s3
  }

  /** The general pass agrees with the four-level handler. */
  lemma FourLevelsAgree(ls: seq<Level>, dx: real, dy: real)
    requires ChainWellFormed(ls) && |ls| == 4
    ensures MouseMoveFourLevels(ls, dx, dy) == Pass(ls, dx, dy)
  {
    var post := Pass(ls, dx, dy);
    var d := Depth(ls, dx, dy);
    DepthFromFacts(ls, dx, dy, 0);
    var m0, m1, m2, m3 := Moved(ls[0], dx, dy), Moved(ls[1], dx, dy), Moved(ls[2], dx, dy), Moved(ls[3], dx, dy);
    var s1 := ls[0 := m0];
    assert OverChild(s1, 0) == MovedOverChild(ls, dx, dy, 0);
    if !OverChild(s1, 0) {
      assert d == 1;
      assert MouseMoveFourLevels(ls, dx, dy) == s1 == post;
    } else {
      var s2 := s1[1 := m1];
      assert OverChild(s2, 1) == MovedOverChild(ls, dx, dy, 1);
      if !OverChild(s2, 1) {
        assert d == 2;
        assert MouseMoveFourLevels(ls, dx, dy) == s2 == post;
      } else {
        var s3 := s2[2 := m2];
        assert OverChild(s3, 2) == MovedOverChild(ls, dx, dy, 2);
        if !OverChild(s3, 2) {
          assert d == 3;
          assert MouseMoveFourLevels(ls, dx, dy) == s3 == post;
        } else {
          assert d == 4;
          assert MouseMoveFourLevels(ls, dx, dy) == s3[3 := m3] == post;
        }
      }
    }
  }
}
