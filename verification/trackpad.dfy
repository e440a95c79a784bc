/** One level of the indirection: a cursor held inside a screen of fixed size,
    driven through a trackpad whose size sets the level's own sensitivity. */
module Trackpad {
  import opened Geometry

  /** The measured geometry of one level, supplied instead of read from the
      page: the screen's rectangle, the trackpad's rectangle, and the cursor
      element's bounding box relative to the cursor position (cursorX, cursorY)
      inside the screen. */
  datatype Layout = Layout(screen: Rect, trackpad: Rect, cursorBox: Rect)

  /** What construction needs: a screen of non-negative size and a trackpad of
      positive size (the sensitivity divides by the trackpad's extents). */
  predicate WellFormed(l: Layout) {
    Width(l.screen) >= 0.0 && Height(l.screen) >= 0.0 &&
    Width(l.trackpad) > 0.0 && Height(l.trackpad) > 0.0
  }

  function RatioX(l: Layout): real
    requires WellFormed(l)
  {
    Width(l.screen) / Width(l.trackpad)
  }

  function RatioY(l: Layout): real
    requires WellFormed(l)
  {
    Height(l.screen) / Height(l.trackpad)
  }

  /** The value of one level: its geometry, its (possibly composed)
      sensitivity per axis, and its cursor position inside its screen. */
  datatype Level = Level(layout: Layout, sensX: real, sensY: real, x: real, y: real)

  predicate InBounds(l: Level) {
    0.0 <= l.x <= Width(l.layout.screen) && 0.0 <= l.y <= Height(l.layout.screen)
  }

  /** A freshly constructed level: cursor in the centre of the screen and the
      level's own screen/trackpad ratio as sensitivity. */
  function Initial(layout: Layout): (l: Level)
    requires WellFormed(layout)
    ensures InBounds(l) && l.layout == layout
    ensures l.x * 2.0 == Width(layout.screen) && l.y * 2.0 == Height(layout.screen)
    ensures l.sensX * Width(layout.trackpad) == Width(layout.screen)
    ensures l.sensY * Height(layout.trackpad) == Height(layout.screen)
  {
    Level(layout, RatioX(layout), RatioY(layout), Width(layout.screen) / 2.0, Height(layout.screen) / 2.0)
  }

  /** `moveBy(dx, dy)` on the value: add the scaled delta, then saturate each
      axis on its own into the screen. */
  function Moved(l: Level, dx: real, dy: real): (r: Level)
    requires WellFormed(l.layout)
    ensures InBounds(r)
    ensures r.layout == l.layout && r.sensX == l.sensX && r.sensY == l.sensY
  {
    l.(x := Clamp(l.x + dx * l.sensX, 0.0, Width(l.layout.screen)),
       y := Clamp(l.y + dy * l.sensY, 0.0, Height(l.layout.screen)))
  }

  /** Where the scaled delta keeps the cursor on the screen, the move is
      exactly that delta: the clamp only ever saturates. */
  lemma MovedExactlyWhenInside(l: Level, dx: real, dy: real)
    requires WellFormed(l.layout)
    ensures 0.0 <= l.x + dx * l.sensX <= Width(l.layout.screen) ==> Moved(l, dx, dy).x == l.x + dx * l.sensX
    ensures 0.0 <= l.y + dy * l.sensY <= Height(l.layout.screen) ==> Moved(l, dx, dy).y == l.y + dy * l.sensY
    ensures l.x + dx * l.sensX < 0.0 ==> Moved(l, dx, dy).x == 0.0
    ensures l.x + dx * l.sensX > Width(l.layout.screen) ==> Moved(l, dx, dy).x == Width(l.layout.screen)
    ensures l.y + dy * l.sensY < 0.0 ==> Moved(l, dx, dy).y == 0.0
    ensures l.y + dy * l.sensY > Height(l.layout.screen) ==> Moved(l, dx, dy).y == Height(l.layout.screen)
  {
  }

  /** The cursor element's bounding rectangle in page coordinates. */
  function CursorRect(l: Level): (r: Rect)
    ensures Width(r) == Width(l.layout.cursorBox) && Height(r) == Height(l.layout.cursorBox)
    ensures r.left == ClickX(l) + l.layout.cursorBox.left && r.top == ClickY(l) + l.layout.cursorBox.top
  {
    var s := l.layout.screen;
    var b := l.layout.cursorBox;
    Rect(s.left + l.x + b.left, s.top + l.y + b.top, s.left + l.x + b.right, s.top + l.y + b.bottom)
  }

  /** The page point a virtual click at this level aims at: the screen's
      origin plus the cursor position, which lies on the screen whenever the
      cursor is in bounds. */
  function ClickX(l: Level): (px: real)
    ensures InBounds(l) ==> l.layout.screen.left <= px <= l.layout.screen.right
  {
    l.layout.screen.left + l.x
  }

  function ClickY(l: Level): (py: real)
    ensures InBounds(l) ==> l.layout.screen.top <= py <= l.layout.screen.bottom
  {
    l.layout.screen.top + l.y
  }

  /** A zero move leaves an in-bounds cursor where it is. */
  lemma ZeroMoveIsIdentity(l: Level)
    requires WellFormed(l.layout) && InBounds(l)
    ensures Moved(l, 0.0, 0.0) == l
  {
  }

  /** From the initial centre position a zero move changes nothing. */
  lemma CenterFixedByZeroMove(layout: Layout)
    requires WellFormed(layout)
    ensures Moved(Initial(layout), 0.0, 0.0) == Initial(layout)
  {
    ZeroMoveIsIdentity(Initial(layout));
  }

  /** Repeated zero moves after any move change nothing. */
  lemma ZeroMoveAfterMove(l: Level, dx: real, dy: real)
    requires WellFormed(l.layout)
    ensures Moved(Moved(l, dx, dy), 0.0, 0.0) == Moved(l, dx, dy)
  {
    ZeroMoveIsIdentity(Moved(l, dx, dy));
  }

  /** Each axis is clamped on its own: the new x does not depend on dy, nor
      the new y on dx. */
  lemma AxesAreIndependent(l: Level, dx: real, dy: real, dx': real, dy': real)
    requires WellFormed(l.layout)
    ensures Moved(l, dx, dy).x == Moved(l, dx, dy').x
    ensures Moved(l, dx, dy).y == Moved(l, dx', dy).y
  {
  }

  /** What the ratio means: with the level's own sensitivity, sweeping the
      whole trackpad width from the left edge carries the cursor exactly to
      the right edge of the screen, and likewise vertically. */
  lemma FullSweepCrossesScreen(layout: Layout)
    requires WellFormed(layout)
    ensures var l := Initial(layout).(x := 0.0, y := 0.0);
            var r := Moved(l, Width(layout.trackpad), Height(layout.trackpad));
            r.x == Width(layout.screen) && r.y == Height(layout.screen)
  {
    var l := Initial(layout).(x := 0.0, y := 0.0);
    assert Width(layout.trackpad) * l.sensX == Width(layout.screen);
    assert Height(layout.trackpad) * l.sensY == Height(layout.screen);
  }

  /** The page elements of one level that the engine reads and updates: the
      cursor position, the sensitivity, and the cursor's visibility. */
  class TrackpadSystem {
    const layout: Layout
    var cursorX: real
    var cursorY: real
    var sensitivityX: real
    var sensitivityY: real
    var cursorVisible: bool

    function View(): Level
      reads this
    {
      Level(layout, sensitivityX, sensitivityY, cursorX, cursorY)
    }

    ghost predicate Valid()
      reads this
    {
      WellFormed(layout) && InBounds(View())
    }

    constructor (layout: Layout)
      requires WellFormed(layout)
      ensures Valid() && View() == Initial(layout) && cursorVisible
    {
      this.layout := layout;
      cursorX := Width(layout.screen) / 2.0;
      cursorY := Height(layout.screen) / 2.0;
      sensitivityX := Width(layout.screen) / Width(layout.trackpad);
      sensitivityY := Height(layout.screen) / Height(layout.trackpad);
      cursorVisible := true;
    }

    /** Compose with the parent's sensitivity: multiply each axis in place. */
    method ScaleSensitivity(parentX: real, parentY: real)
      modifies this`sensitivityX, this`sensitivityY
      ensures sensitivityX == old(sensitivityX) * parentX && sensitivityY == old(sensitivityY) * parentY
    {
      sensitivityX := sensitivityX * parentX;
      sensitivityY := sensitivityY * parentY;
    }

    method MoveBy(dx: real, dy: real)
      requires WellFormed(layout)
      modifies this`cursorX, this`cursorY
      ensures Valid()
      ensures View() == Moved(old(View()), dx, dy)
    {
      ghost var before := View();
      cursorX := cursorX + dx * sensitivityX;
      cursorY := cursorY + dy * sensitivityY;
      ghost var rawX, rawY := cursorX, cursorY;
      assert rawX == before.x + dx * before.sensX && rawY == before.y + dy * before.sensY;
      if cursorX < 0.0 { cursorX := 0.0; }
      if cursorY < 0.0 { cursorY := 0.0; }
      if cursorX > Width(layout.screen) { cursorX := Width(layout.screen); }
      if cursorY > Height(layout.screen) { cursorY := Height(layout.screen); }
      assert cursorX == Clamp(rawX, 0.0, Width(layout.screen));
      assert cursorY == Clamp(rawY, 0.0, Height(layout.screen));
      assert Moved(before, dx, dy) == before.(x := cursorX, y := cursorY);
    }
  }
}
