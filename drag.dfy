/**
 * One pointer-move step of a drag/resize gesture (`handler_mousemove`,
 * src/js/winbox.js:410-495): the displacement each of the nine handles
 * applies to a window's stored geometry, followed by clamping.
 */
module Drag {
  import opened Geometry

  /** Minimum width and height a drag leaves a resized window with. */
  const MinWidth: real := 250.0
  const MinHeight: real := 35.0

  /** The title bar and the eight edge/corner bars (`winbox-title`, `bar-n`, ...). */
  datatype Handle = Title | N | S | E | W | NE | NW | SE | SW

  predicate EastFamily(h: Handle) { h == E || h == SE || h == NE }
  predicate WestFamily(h: Handle) { h == W || h == SW || h == NW }
  predicate SouthFamily(h: Handle) { h == S || h == SE || h == SW }
  predicate NorthFamily(h: Handle) { h == N || h == NE || h == NW }

  /** Which of `resize_w`, `resize_h`, `move_x`, `move_y` a handle sets. */
  predicate ResizesW(h: Handle) { EastFamily(h) || WestFamily(h) }
  predicate ResizesH(h: Handle) { SouthFamily(h) || NorthFamily(h) }
  predicate MovesX(h: Handle) { h == Title || WestFamily(h) }
  predicate MovesY(h: Handle) { h == Title || NorthFamily(h) }

  /** The window fits its bounds: the invariant a drag is meant to keep. */
  predicate InBounds(g: Rect, b: Bounds) {
    g.w >= MinWidth && g.h >= MinHeight &&
    b.left <= g.x <= b.rootW - g.w - b.right &&
    b.top <= g.y <= b.rootH - g.h - b.bottom - 1.0
  }

  /** The per-handle deltas, before any clamping. */
  function Displace(g: Rect, h: Handle, dx: real, dy: real): (r: Rect)
    ensures h == Title ==> r == Rect(g.x + dx, g.y + dy, g.w, g.h)
    ensures EastFamily(h) ==> r.w == g.w + dx && r.x == g.x
    ensures WestFamily(h) ==> r.x == g.x + dx && r.x + r.w == g.x + g.w
    ensures SouthFamily(h) ==> r.h == g.h + dy && r.y == g.y
    ensures NorthFamily(h) ==> r.y == g.y + dy && r.y + r.h == g.y + g.h
    ensures !ResizesW(h) && h != Title ==> r.x == g.x && r.w == g.w
    ensures !ResizesH(h) && h != Title ==> r.y == g.y && r.h == g.h
  {
    if h == Title then Rect(g.x + dx, g.y + dy, g.w, g.h)
    else
      var horizontal :=
        if EastFamily(h) then g.(w := g.w + dx)
        else if WestFamily(h) then g.(x := g.x + dx, w := g.w - dx)
        else g;
      if SouthFamily(h) then horizontal.(h := horizontal.h + dy)
      else if NorthFamily(h) then horizontal.(y := horizontal.y + dy, h := horizontal.h - dy)
      else horizontal
  }

  /** Clamp the size against the viewport and the minimum, width before height, for the axes `h` resizes. */
  function ClampSize(d: Rect, b: Bounds, h: Handle): (r: Rect)
    ensures r.x == d.x && r.y == d.y
    ensures !ResizesW(h) ==> r.w == d.w
    ensures !ResizesH(h) ==> r.h == d.h
    ensures ResizesW(h) ==> r.w >= MinWidth && (r.w > MinWidth ==> r.w <= b.rootW - d.x - b.right)
    ensures ResizesH(h) ==> r.h >= MinHeight && (r.h > MinHeight ==> r.h <= b.rootH - d.y - b.bottom - 1.0)
    ensures MinWidth <= d.w <= b.rootW - d.x - b.right ==> r.w == d.w
    ensures MinHeight <= d.h <= b.rootH - d.y - b.bottom - 1.0 ==> r.h == d.h
    ensures ResizesW(h) && d.w >= b.rootW - d.x - b.right ==> r.w == Max(b.rootW - d.x - b.right, MinWidth)
    ensures ResizesW(h) && d.w <= MinWidth ==> r.w == MinWidth
    ensures ResizesH(h) && d.h >= b.rootH - d.y - b.bottom - 1.0 ==> r.h == Max(b.rootH - d.y - b.bottom - 1.0, MinHeight)
    ensures ResizesH(h) && d.h <= MinHeight ==> r.h == MinHeight
  {
    var w := if ResizesW(h) then Max(Min(d.w, b.rootW - d.x - b.right), MinWidth) else d.w;
    var ht := if ResizesH(h) then Max(Min(d.h, b.rootH - d.y - b.bottom - 1.0), MinHeight) else d.h;
    Rect(d.x, d.y, w, ht)
  }

  /** Clamp the position against the viewport and the insets, for the axes `h` moves. */
  function ClampPosition(d: Rect, b: Bounds, h: Handle): (r: Rect)
    ensures r.w == d.w && r.h == d.h
    ensures !MovesX(h) ==> r.x == d.x
    ensures !MovesY(h) ==> r.y == d.y
    ensures MovesX(h) ==> r.x >= b.left && (r.x > b.left ==> r.x <= b.rootW - d.w - b.right)
    ensures MovesY(h) ==> r.y >= b.top && (r.y > b.top ==> r.y <= b.rootH - d.h - b.bottom - 1.0)
    ensures b.left <= d.x <= b.rootW - d.w - b.right ==> r.x == d.x
    ensures b.top <= d.y <= b.rootH - d.h - b.bottom - 1.0 ==> r.y == d.y
    ensures MovesX(h) && d.x >= b.rootW - d.w - b.right ==> r.x == Max(b.rootW - d.w - b.right, b.left)
    ensures MovesX(h) && d.x <= b.left ==> r.x == b.left
    ensures MovesY(h) && d.y >= b.rootH - d.h - b.bottom - 1.0 ==> r.y == Max(b.rootH - d.h - b.bottom - 1.0, b.top)
    ensures MovesY(h) && d.y <= b.top ==> r.y == b.top
  {
    var x := if MovesX(h) then Max(Min(d.x, b.rootW - d.w - b.right), b.left) else d.x;
    var y := if MovesY(h) then Max(Min(d.y, b.rootH - d.h - b.bottom - 1.0), b.top) else d.y;
    Rect(x, y, d.w, d.h)
  }

  /**
   * The whole step: displace, clamp the size (width before height), then
   * clamp the position against the already clamped size.
   */
  function Step(g: Rect, b: Bounds, h: Handle, dx: real, dy: real): (r: Rect)
    ensures ResizesW(h) ==> r.w >= MinWidth
    ensures ResizesH(h) ==> r.h >= MinHeight
    ensures MovesX(h) ==> r.x >= b.left
    ensures MovesY(h) ==> r.y >= b.top
    ensures !ResizesW(h) ==> r.w == g.w
    ensures !ResizesH(h) ==> r.h == g.h
    ensures !MovesX(h) ==> r.x == g.x
    ensures !MovesY(h) ==> r.y == g.y
  {
    ClampPosition(ClampSize(Displace(g, h, dx, dy), b, h), b, h)
  }

  /** Clamping changes nothing when the displaced window already fits. */
  lemma StepUnclamped(g: Rect, b: Bounds, h: Handle, dx: real, dy: real)
    requires InBounds(Displace(g, h, dx, dy), b)
    ensures Step(g, b, h, dx, dy) == Displace(g, h, dx, dy)
  {
  }

  /** Moving by the title bar, or resizing by the east, south or south-east bar, keeps a fitting window fitting. */
  lemma StepKeepsInBounds(g: Rect, b: Bounds, h: Handle, dx: real, dy: real)
    requires InBounds(g, b)
    requires h == Title || h == E || h == S || h == SE
    ensures InBounds(Step(g, b, h, dx, dy), b)
  {
  }

  /**
   * Dragging the west bar past the left inset does not keep the window
   * inside the viewport: a 500-wide window at x = 500 on a 1000-wide
   * viewport, dragged 600 to the left, ends at x = 0 with width 1100.
   */
  lemma WestDragOverflows()
    ensures var b := Bounds(1000.0, 800.0, 0.0, 0.0, 0.0, 0.0);
      var g := Rect(500.0, 0.0, 500.0, 400.0);
      InBounds(g, b) && Step(g, b, W, -600.0, 0.0) == Rect(0.0, 0.0, 1100.0, 400.0) &&
      !InBounds(Step(g, b, W, -600.0, 0.0), b)
  {
  }

  /** The same holds for the north bar against the top inset. */
  lemma NorthDragOverflows()
    ensures var b := Bounds(1000.0, 800.0, 0.0, 0.0, 0.0, 0.0);
      var g := Rect(0.0, 399.0, 500.0, 400.0);
      InBounds(g, b) && Step(g, b, N, 0.0, -500.0) == Rect(0.0, 0.0, 500.0, 900.0) &&
      !InBounds(Step(g, b, N, 0.0, -500.0), b)
  {
  }
}
