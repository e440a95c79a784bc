/** The page-level engine set up once the page has loaded: the chain of
    levels, parent first; the gate kept by entering and leaving the outermost
    trackpad; and the record of clicks dispatched on hit elements. */
module Engine {
  import opened Wrappers
  import opened Geometry
  import opened Trackpad
  import opened Sensitivity
  import opened Propagation
  import opened Click

  /** An element the page's point hit-test can return. */
  type ElementId = nat

  /** The page's point hit-test: given a page point and the visibility of
      every cursor, parent first, the topmost element there, if any. */
  type HitTest = (real, real, seq<bool>) -> Option<ElementId>

  function AllSetTo(n: nat, b: bool): seq<bool> {
    seq(n, _ => b)
  }

  /** One composition step: `child.sensitivity *= parent.sensitivity`, with
      the parent already composed. */
  method ComposeLevel(child: TrackpadSystem, parent: TrackpadSystem, ghost ls: seq<Layout>, ghost i: nat)
    requires AllWellFormed(ls) && 0 < i < |ls|
    requires child.sensitivityX == RatioX(ls[i]) && child.sensitivityY == RatioY(ls[i])
    requires parent.sensitivityX == ComposedX(ls, i - 1) && parent.sensitivityY == ComposedY(ls, i - 1)
    modifies child`sensitivityX, child`sensitivityY
    ensures child.sensitivityX == ComposedX(ls, i) && child.sensitivityY == ComposedY(ls, i)
  {
    ComposeStep(ls, i);
    child.ScaleSensitivity(parent.sensitivityX, parent.sensitivityY);
  }

  class Indirection {
    const levels: seq<TrackpadSystem>
    /** The composed sensitivity of each level, per axis, fixed at setup. */
    ghost const composedX: seq<real>
    ghost const composedY: seq<real>
    var mouseOverParentTrackpad: bool
    var clicks: seq<ElementId>

    function Layouts(): seq<Layout> {
      seq(|levels|, i requires 0 <= i < |levels| => levels[i].layout)
    }

    function View(): seq<Level>
      reads levels
    {
      seq(|levels|, i requires 0 <= i < |levels| reads levels => levels[i].View())
    }

    function Visibility(): seq<bool>
      reads levels
    {
      seq(|levels|, i requires 0 <= i < |levels| reads levels => levels[i].cursorVisible)
    }

    ghost predicate Distinct() {
      forall i, j :: 0 <= i < j < |levels| ==> levels[i] != levels[j]
    }

    ghost predicate LevelsValid()
      reads levels
    {
      forall i :: 0 <= i < |levels| ==> levels[i].Valid()
    }

    /** The composed sensitivity of a level is the product of the ratios of
        its ancestors and itself. */
    ghost predicate ComposedTargets() {
      AllWellFormed(Layouts()) && |composedX| == |levels| && |composedY| == |levels| &&
      forall i :: 0 <= i < |levels| ==>
        composedX[i] == ComposedX(Layouts(), i) && composedY[i] == ComposedY(Layouts(), i)
    }

    /** Every level carries its composed sensitivity. */
    ghost predicate SensitivitiesComposed()
      reads levels
    {
      |composedX| == |levels| && |composedY| == |levels| &&
      forall i :: 0 <= i < |levels| ==>
        levels[i].sensitivityX == composedX[i] && levels[i].sensitivityY == composedY[i]
    }

    ghost predicate Valid()
      reads this, levels
    {
      |levels| >= 1 && Distinct() && LevelsValid() && ComposedTargets() && SensitivitiesComposed()
    }

    /** Build one level per layout, parent first, then compose their
        sensitivities. */
    constructor (layouts: seq<Layout>)
      requires |layouts| >= 1 && AllWellFormed(layouts)
      ensures Valid() && Layouts() == layouts
      ensures forall i :: 0 <= i < |layouts| ==> fresh(levels[i])
      ensures forall i :: 0 <= i < |layouts| ==>
        View()[i].x == Initial(layouts[i]).x && View()[i].y == Initial(layouts[i]).y
      ensures Visibility() == AllSetTo(|layouts|, true)
      ensures !mouseOverParentTrackpad && clicks == []
    {
      var built := NewLevels(layouts);
      levels := built;
      composedX := seq(|layouts|, i requires 0 <= i < |layouts| => ComposedX(layouts, i));
      composedY := seq(|layouts|, i requires 0 <= i < |layouts| => ComposedY(layouts, i));
      mouseOverParentTrackpad := false;
      clicks := [];
      new;
      assert Layouts() == layouts;
      ComposeSensitivities();
      assert Visibility() == AllSetTo(|layouts|, true);
    }

    /** One freshly constructed level per layout, parent first. */
    static method NewLevels(layouts: seq<Layout>) returns (built: seq<TrackpadSystem>)
      requires AllWellFormed(layouts)
      ensures |built| == |layouts|
      ensures forall i :: 0 <= i < |built| ==> fresh(built[i])
      ensures forall i, j :: 0 <= i < j < |built| ==> built[i] != built[j]
      ensures forall i :: 0 <= i < |built| ==>
        built[i].Valid() && built[i].View() == Initial(layouts[i]) && built[i].cursorVisible
    {
      built := [];
      while |built| < |layouts|
        invariant |built| <= |layouts|
        invariant forall i :: 0 <= i < |built| ==> fresh(built[i])
        invariant forall i, j :: 0 <= i < j < |built| ==> built[i] != built[j]
        invariant forall i :: 0 <= i < |built| ==>
          built[i].Valid() && built[i].View() == Initial(layouts[i]) && built[i].cursorVisible
      {
        var level := new TrackpadSystem(layouts[|built|]);
        built := built + [level];
      }
    }

    /** Multiply each nested level's sensitivity, in place, by its parent's
        already composed one, parent to child. */
    method ComposeSensitivities()
      requires |levels| >= 1 && Distinct() && LevelsValid() && ComposedTargets()
      requires forall i :: 0 <= i < |levels| ==>
        levels[i].sensitivityX == RatioX(levels[i].layout) && levels[i].sensitivityY == RatioY(levels[i].layout)
      modifies levels
      ensures Valid()
      ensures forall i :: 0 <= i < |levels| ==>
        levels[i].cursorX == old(levels[i].cursorX) && levels[i].cursorY == old(levels[i].cursorY) &&
        levels[i].cursorVisible == old(levels[i].cursorVisible)
    {
      ghost var ls := Layouts();
      ghost var cx, cy := composedX, composedY;
      ComposedRoot(ls);
      var i := 1;
      while i < |levels|
        invariant 1 <= i <= |levels|
        invariant forall j :: 0 <= j < |levels| ==>
          levels[j].cursorX == old(levels[j].cursorX) && levels[j].cursorY == old(levels[j].cursorY) &&
          levels[j].cursorVisible == old(levels[j].cursorVisible)
        invariant forall j :: 0 <= j < i ==> levels[j].sensitivityX == cx[j] && levels[j].sensitivityY == cy[j]
        invariant forall j :: i <= j < |levels| ==>
          levels[j].sensitivityX == RatioX(ls[j]) && levels[j].sensitivityY == RatioY(ls[j])
      {
        ComposeLevel(levels[i], levels[i - 1], ls, i);
        i := i + 1;
      }
    }

    method OnMouseEnter()
      modifies this`mouseOverParentTrackpad
      ensures mouseOverParentTrackpad
    {
      mouseOverParentTrackpad := true;
    }

    method OnMouseLeave()
      modifies this`mouseOverParentTrackpad
      ensures !mouseOverParentTrackpad
    {
      mouseOverParentTrackpad := false;
    }

    /** The mouse-move handler: nothing moves unless the pointer is over the
        outermost trackpad. */
    method OnMouseMove(dx: real, dy: real)
      requires Valid()
      modifies levels`cursorX, levels`cursorY
      ensures Valid()
      ensures View() == Propagation.OnMouseMove(old(View()), mouseOverParentTrackpad, dx, dy)
      ensures Visibility() == old(Visibility())
    {
      if mouseOverParentTrackpad {
        ghost var pre := View();
        Propagate(dx, dy, pre);
        PassByDepth(pre, dx, dy, View());
        PassKeepsInBounds(pre, dx, dy);
        forall i | 0 <= i < |levels|
          ensures levels[i].Valid()
        {
          assert levels[i].View() == View()[i];
          assert old(levels[i].View()) == pre[i];
        }
        assert Visibility() == old(Visibility());
      }
    }

    /** One propagation pass: move the parent, then walk down the chain
        moving each level whose ancestors' tests have all held, each test
        taken after the level above has been dealt with. The levels the pass
        reaches are exactly the first Depth(pre, dx, dy). */
    method Propagate(dx: real, dy: real, ghost pre: seq<Level>)
      requires |levels| >= 1 && |pre| == |levels| && ChainWellFormed(pre) && Distinct()
      requires forall j :: 0 <= j < |levels| ==> levels[j].View() == pre[j]
      modifies levels`cursorX, levels`cursorY
      ensures forall j :: 0 <= j < Depth(pre, dx, dy) ==> levels[j].View() == Moved(pre[j], dx, dy)
      ensures forall j :: Depth(pre, dx, dy) <= j < |levels| ==> levels[j].View() == pre[j]
    {
      ghost var d := Depth(pre, dx, dy);
      DepthFromFacts(pre, dx, dy, 0);
      levels[0].MoveBy(dx, dy);
      var active := true;
      var i := 0;
      while i + 1 < |levels|
        invariant 0 <= i < |levels|
        invariant active <==> i < d
        invariant forall j :: 0 <= j <= i && j < d ==> levels[j].View() == Moved(pre[j], dx, dy)
        invariant forall j :: 0 <= j <= i && d <= j ==> levels[j].View() == pre[j]
        invariant forall j :: i < j < |levels| ==> levels[j].View() == pre[j]
      {
        var over := IsOver(CursorRect(levels[i].View()), levels[i + 1].layout.trackpad);
        if active {
          assert levels[i].View() == Moved(pre[i], dx, dy);
          assert levels[i + 1].layout.trackpad == pre[i + 1].layout.trackpad;
          assert over == MovedOverChild(pre, dx, dy, i);
        }
        active := active && over;
        if active {
          levels[i + 1].MoveBy(dx, dy);
        }
        i := i + 1;
      }
    }

    /** Set every cursor's visibility, parent first; nothing else changes. */
    method SetAllVisible(visible: bool)
      requires Distinct()
      modifies levels
      ensures forall j :: 0 <= j < |levels| ==> levels[j].View() == old(levels[j].View())
      ensures Visibility() == AllSetTo(|levels|, visible)
    {
      ghost var pre := View();
      for i := 0 to |levels|
        invariant forall j :: 0 <= j < i ==> levels[j].cursorVisible == visible
        invariant forall j :: 0 <= j < |levels| ==> levels[j].View() == pre[j]
      {
        levels[i].cursorVisible := visible;
      }
      assert Visibility() == AllSetTo(|levels|, visible);
    }

    /** Click at level k's cursor: hide every cursor, hit-test the page at the
        cursor's page point, show every cursor again, and dispatch a click only
        when an element was hit. */
    method ExecuteVirtualClick(k: nat, hitTest: HitTest) returns (hit: Option<ElementId>)
      requires Valid() && k < |levels|
      modifies levels, this`clicks
      ensures Valid() && View() == old(View())
      ensures hit == hitTest(ClickX(old(View())[k]), ClickY(old(View())[k]), AllSetTo(|levels|, false))
      ensures Visibility() == AllSetTo(|levels|, true)
      ensures clicks == old(clicks) + (if hit.Some? then [hit.value] else [])
    {
      var x := ClickX(levels[k].View());
      var y := ClickY(levels[k].View());
      SetAllVisible(false);
      hit := hitTest(x, y, Visibility());
      SetAllVisible(true);
      if hit.Some? {
        clicks := clicks + [hit.value];
      }
    }

    /** The click handler: dispatch at the deepest level whose chain of
        overlap tests holds. */
    method OnClick(hitTest: HitTest) returns (target: nat, hit: Option<ElementId>)
      requires Valid()
      modifies levels, this`clicks
      ensures Valid() && View() == old(View())
      ensures target == ClickTarget(old(View()))
      ensures hit == hitTest(ClickX(old(View())[target]), ClickY(old(View())[target]), AllSetTo(|levels|, false))
      ensures Visibility() == AllSetTo(|levels|, true)
      ensures clicks == old(clicks) + (if hit.Some? then [hit.value] else [])
    {
      target := ClickTarget(View());
      hit := ExecuteVirtualClick(target, hitTest);
    }
  }
}
