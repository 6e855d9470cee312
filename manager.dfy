/**
 * The window manager's state: the module globals of src/js/winbox.js:14-20
 * held by one `Manager`, the per-window fields of a `Win`, and the public
 * operations that change them.
 */
module WindowManager {
  import opened Wrappers
  import opened Geometry
  import opened MinStack
  import opened Drag
  import opened Options
  import Prefix

  /** A pointer position, `(pageX, pageY)`. */
  datatype Point = Point(x: real, y: real)

  /**
   * The arguments of `move`/`resize`: none (re-render the stored values),
   * exact pixels passed with `_skip_update` (rendered, not stored), or values
   * to parse and store.
   */
  datatype Arg<T> = Current | Exact(a: real, b: real) | Parsed(u: T, v: T)

  /** What the callbacks receive and what the platform is asked to do, in order. */
  datatype Event =
    | Moved(win: Win, x: real, y: real)
    | Resized(win: Win, w: real, h: real)
    | Focused(win: Win)
    | Blurred(win: Win)
    | Closed(win: Win)
    | FullscreenRequested(win: Win, request: string)
    | FullscreenExited(exit: string)


  /** The geometry an element shows before any style is set. */
  const Unstyled := Rect(0.0, 0.0, 0.0, 0.0)

  function Lookup(m: map<Win, Rect>, w: Win): Rect {
    if w in m then m[w] else Unstyled
  }

  function MoveEvents(w: Win, x: real, y: real): seq<Event> {
    if OnMove in w.handlers then [Moved(w, x, y)] else []
  }

  function ResizeEvents(w: Win, width: real, height: real): seq<Event> {
    if OnResize in w.handlers then [Resized(w, width, height)] else []
  }

  /** The callbacks of `resize(r.w, r.h)` followed by `move(r.x, r.y)`. */
  function RenderEvents(w: Win, r: Rect): seq<Event> {
    ResizeEvents(w, r.w, r.h) + MoveEvents(w, r.x, r.y)
  }

  /** What a drag step on bar `h` shows after its size is clamped: the new size if `h` resizes, else as before. */
  function ShowSize(m: map<Win, Rect>, w: Win, h: Handle, width: real, height: real): map<Win, Rect> {
    if ResizesW(h) || ResizesH(h) then m[w := Lookup(m, w).(w := width, h := height)] else m
  }

  /** What it shows after its position is clamped: the new position if `h` moves, else as before. */
  function ShowPosition(m: map<Win, Rect>, w: Win, h: Handle, x: real, y: real): map<Win, Rect> {
    if MovesX(h) || MovesY(h) then m[w := Lookup(m, w).(x := x, y := y)] else m
  }

  /** The `onresize` callback of a drag step, when `h` resizes. */
  function SizeEvents(w: Win, h: Handle, width: real, height: real): seq<Event> {
    if ResizesW(h) || ResizesH(h) then ResizeEvents(w, width, height) else []
  }

  /** The `onmove` callback of a drag step, when `h` moves. */
  function PositionEvents(w: Win, h: Handle, x: real, y: real): seq<Event> {
    if MovesX(h) || MovesY(h) then MoveEvents(w, x, y) else []
  }

  /** A second update of the same key overrides the first. */
  lemma UpdateTwice<K, V>(m: map<K, V>, k: K, a: V, b: V)
    ensures m[k := a][k := b] == m[k := b]
  {
  }

  /** Storing the value a key already holds leaves the map as it was. */
  lemma UpdateSame<K, V>(m: map<K, V>, k: K)
    requires k in m
    ensures m[k := m[k]] == m
  {
  }

  /** The previous window's `onblur`, strictly before the new window's `onfocus`. */
  function FocusEvents(prev: Win?, w: Win): seq<Event> {
    (if prev != null && OnBlur in prev.handlers then [Blurred(prev)] else []) +
    (if OnFocus in w.handlers then [Focused(w)] else [])
  }

  /** What `minimize` asks of the platform first: an exit when the flag is set and the platform reports fullscreen. */
  function ExitCalls(isFullscreen: Option<bool>, has: bool, exit: string): seq<Event> {
    if isFullscreen == Some(true) && has then [FullscreenExited(exit)] else []
  }

  /** What a `fullscreen` toggle asks of the platform: an exit when the flag is set and the platform reports fullscreen, otherwise a request. */
  function SwitchCalls(isFullscreen: Option<bool>, has: bool, w: Win, request: string, exit: string): seq<Event> {
    if isFullscreen == Some(true) && has then [FullscreenExited(exit)] else [FullscreenRequested(w, request)]
  }

  /** The screen after `update_min_stack` has rendered the first `k` members of `s` into their slots. */
  function Layout(m: map<Win, Rect>, s: seq<Win>, k: nat, b: Bounds): map<Win, Rect>
    requires k <= |s|
  {
    if k == 0 then m else Layout(m, s, k - 1, b)[s[k - 1] := Slot(k - 1, |s|, b)]
  }

  /** The callbacks `update_min_stack` fires for the first `k` members of `s`. */
  function LayoutEvents(s: seq<Win>, k: nat, b: Bounds): seq<Event>
    requires k <= |s|
  {
    if k == 0 then []
    else LayoutEvents(s, k - 1, b) + RenderEvents(s[k - 1], Slot(k - 1, |s|, b))
  }

  /** Each of the first `k` members shows its own slot, and every other element keeps what it showed. */
  lemma {:induction false} LayoutPlaces(m: map<Win, Rect>, s: seq<Win>, k: nat, b: Bounds)
    requires k <= |s| && NoDup(s)
    ensures forall j :: 0 <= j < k ==> Lookup(Layout(m, s, k, b), s[j]) == Slot(j, |s|, b)
    ensures forall v :: v !in s[..k] ==> Lookup(Layout(m, s, k, b), v) == Lookup(m, v)
  {
    if k > 0 {
      LayoutPlaces(m, s, k - 1, b);
      assert s[..k] == s[..k - 1] + [s[k - 1]];
      forall j | 0 <= j < k - 1 ensures s[j] != s[k - 1] {
      }
    }
  }

  /**
   * The page around the windows: the geometry each window's element shows
   * (the last transform, width and height set on it) and, in order, the
   * callbacks fired and the Fullscreen API calls made. An entry of `shown`
   * may belong to an element no longer on the page: after `close` a drag
   * in progress still sets styles on the detached element.
   */
  class Host {
    var shown: map<Win, Rect>
    var calls: seq<Event>

    constructor ()
      ensures shown == map[] && calls == []
    {
      shown := map[];
      calls := [];
    }

    function Shown(w: Win): Rect
      reads this
    {
      Lookup(shown, w)
    }

    /** The transform half of `move`, and `onmove`. */
    method SetPosition(w: Win, px: real, py: real)
      modifies this
      ensures shown == old(shown)[w := old(Shown(w)).(x := px, y := py)]
      ensures calls == old(calls) + MoveEvents(w, px, py)
    {
      shown := shown[w := Shown(w).(x := px, y := py)];
      calls := calls + MoveEvents(w, px, py);
    }

    /** The width/height half of `resize`, and `onresize`. */
    method SetSize(w: Win, pw: real, ph: real)
      modifies this
      ensures shown == old(shown)[w := old(Shown(w)).(w := pw, h := ph)]
      ensures calls == old(calls) + ResizeEvents(w, pw, ph)
    {
      shown := shown[w := Shown(w).(w := pw, h := ph)];
      calls := calls + ResizeEvents(w, pw, ph);
    }

    /** The callbacks `es` fire, then the element leaves the document. */
    method Dispose(w: Win, es: seq<Event>)
      modifies this
      ensures shown == old(shown) - {w} && calls == old(calls) + es
    {
      calls := calls + es;
      shown := shown - {w};
    }

    method Record(e: Event)
      modifies this
      ensures shown == old(shown) && calls == old(calls) + [e]
    {
      calls := calls + [e];
    }

    /** The callbacks `es` fire in order. */
    method Notify(es: seq<Event>)
      modifies this
      ensures shown == old(shown) && calls == old(calls) + es
    {
      calls := calls + es;
    }
  }

  /** The fields a window object carries; its element's attributes live with the manager and the host. */
  class Win {
    const id: string
    const top: real
    const left: real
    const bottom: real
    const right: real
    const handlers: set<Callback>
    const actions: set<Action>
    const content: Content
    var title: string
    var x: real
    var y: real
    var width: real
    var height: real
    var rootW: real
    var rootH: real
    var min: bool
    var max: bool
    /** Per drag bar with its move/up listeners attached, the pointer position last seen (the closure's `x`, `y`). */
    var anchors: map<Handle, Point>

    /** The stored geometry. */
    function Stored(): Rect
      reads this
    {
      Rect(x, y, width, height)
    }

    /** The viewport snapshot and the insets. */
    function Limits(): Bounds
      reads this
    {
      Bounds(rootW, rootH, top, left, bottom, right)
    }

    /** Where `maximize` renders the window: the whole inset-reduced viewport, one pixel short in height. */
    function MaxRect(): Rect
      reads this
    {
      Rect(left, top, rootW - left - right, rootH - top - bottom - 1.0)
    }

    constructor (id: string, title: string, g: Rect, ins: Insets, rootW: real, rootH: real,
                 handlers: set<Callback>, actions: set<Action>, content: Content)
      ensures this.id == id && this.title == title && Stored() == g
      ensures Insets(top, left, bottom, right) == ins && this.rootW == rootW && this.rootH == rootH
      ensures this.handlers == handlers && this.actions == actions && this.content == content
      ensures !min && !max && anchors == map[]
    {
      this.id := id;
      this.title := title;
      x, y, width, height := g.x, g.y, g.w, g.h;
      top, left, bottom, right := ins.top, ins.left, ins.bottom, ins.right;
      this.rootW, this.rootH := rootW, rootH;
      this.handlers, this.actions, this.content := handlers, actions, content;
      min, max := false, false;
      anchors := map[];
    }

    /** `init`: refresh the viewport snapshot (the document's client size, passed in). */
    method Init(clientW: real, clientH: real)
      modifies `rootW, `rootH
      ensures rootW == clientW && rootH == clientH
    {
      rootW, rootH := clientW, clientH;
    }

    /** `setTitle`: store the title; geometry and the hover hint are untouched. */
    method SetTitle(t: string)
      modifies `title
      ensures title == t
    {
      title := t;
    }

    /**
     * `move(x, y, _skip_update)`: parsed values are stored (a falsy one as 0)
     * against the inset-reduced viewport and the window's own size; exact
     * ones are only shown; with no arguments the stored position is shown.
     */
    method Move(arg: Arg<Dim>, host: Host)
      modifies `x, `y, host
      ensures arg.Parsed? ==>
        x == Parse(arg.u, rootW - left - right, width) &&
        y == Parse(arg.v, rootH - top - bottom, height)
      ensures !arg.Parsed? ==> x == old(x) && y == old(y)
      ensures var p := if arg.Exact? then Point(arg.a, arg.b) else Point(x, y);
        host.shown == old(host.shown)[this := old(host.Shown(this)).(x := p.x, y := p.y)] &&
        host.calls == old(host.calls) + MoveEvents(this, p.x, p.y)
    {
      match arg
      case Current =>
        host.SetPosition(this, x, y);
      case Exact(a, b) =>
        host.SetPosition(this, a, b);
      case Parsed(a, b) =>
        x := if Truthy(a) then Parse(a, rootW - left - right, width) else 0.0;
        y := if Truthy(b) then Parse(b, rootH - top - bottom, height) else 0.0;
        host.SetPosition(this, x, y);
    }

    /** `resize(w, h, _skip_update)`, with the same three forms as `Move`. */
    method Resize(arg: Arg<Size>, host: Host)
      modifies `width, `height, host
      ensures arg.Parsed? ==>
        width == Parse(arg.u, rootW - left - right, 0.0) &&
        height == Parse(arg.v, rootH - top - bottom, 0.0)
      ensures !arg.Parsed? ==> width == old(width) && height == old(height)
      ensures var p := if arg.Exact? then Point(arg.a, arg.b) else Point(width, height);
        host.shown == old(host.shown)[this := old(host.Shown(this)).(w := p.x, h := p.y)] &&
        host.calls == old(host.calls) + ResizeEvents(this, p.x, p.y)
    {
      match arg
      case Current =>
        host.SetSize(this, width, height);
      case Exact(a, b) =>
        host.SetSize(this, a, b);
      case Parsed(a, b) =>
        width := if Truthy(a) then Parse(a, rootW - left - right, 0.0) else 0.0;
        height := if Truthy(b) then Parse(b, rootH - top - bottom, 0.0) else 0.0;
        host.SetSize(this, width, height);
    }

    /** The handle-dependent displacement a `mousemove` applies to the stored geometry. */
    method DisplaceBy(h: Handle, dx: real, dy: real)
      modifies `x, `y, `width, `height
      ensures Stored() == Displace(old(Stored()), h, dx, dy)
    {
      if h == Title {
        x := x + dx;
        y := y + dy;
      } else {
        if EastFamily(h) {
          width := width + dx;
        } else if WestFamily(h) {
          x := x + dx;
          width := width - dx;
        }
        if SouthFamily(h) {
          height := height + dy;
        } else if NorthFamily(h) {
          y := y + dy;
          height := height - dy;
        }
      }
    }

    /** Clamp the size on the axes `h` resizes and, if there are any, show the new size. */
    method FitSize(h: Handle, host: Host)
      modifies `width, `height, host
      ensures Stored() == ClampSize(old(Stored()), Limits(), h)
      ensures host.shown == ShowSize(old(host.shown), this, h, width, height)
      ensures host.calls == old(host.calls) + SizeEvents(this, h, width, height)
    {
      if ResizesW(h) || ResizesH(h) {
        if ResizesW(h) {
          width := Max(Min(width, rootW - x - right), MinWidth);
        }
        if ResizesH(h) {
          height := Max(Min(height, rootH - y - bottom - 1.0), MinHeight);
        }
        Resize(Current, host);
      }
    }

    /** Clamp the position on the axes `h` moves and, if there are any, show the new position. */
    method FitPosition(h: Handle, host: Host)
      modifies `x, `y, host
      ensures Stored() == ClampPosition(old(Stored()), Limits(), h)
      ensures host.shown == ShowPosition(old(host.shown), this, h, x, y)
      ensures host.calls == old(host.calls) + PositionEvents(this, h, x, y)
    {
      if MovesX(h) || MovesY(h) {
        if MovesX(h) {
          x := Max(Min(x, rootW - width - right), left);
        }
        if MovesY(h) {
          y := Max(Min(y, rootH - height - bottom - 1.0), top);
        }
        Move(Current, host);
      }
    }

    /** One `mousemove` step on bar `h` with the pointer at (`px`, `py`): displace, clamp, show, remember the pointer. */
    method DragTo(h: Handle, px: real, py: real, host: Host)
      requires h in anchors
      modifies `x, `y, `width, `height, `anchors, host
      ensures Stored() == Step(old(Stored()), Limits(), h, px - old(anchors[h].x), py - old(anchors[h].y))
      ensures anchors == old(anchors)[h := Point(px, py)]
      ensures host.shown == ShowPosition(ShowSize(old(host.shown), this, h, width, height), this, h, x, y)
      ensures host.calls == old(host.calls) + SizeEvents(this, h, width, height) + PositionEvents(this, h, x, y)
    {
      var offsetX := px - anchors[h].x;
      var offsetY := py - anchors[h].y;
      DisplaceBy(h, offsetX, offsetY);
      FitSize(h, host);
      FitPosition(h, host);
      anchors := anchors[h := Point(px, py)];
    }

    /** `resize().move()`: show exactly the stored geometry again. */
    method Rerender(host: Host)
      modifies host
      ensures host.shown == old(host.shown)[this := Stored()]
      ensures host.calls == old(host.calls) + RenderEvents(this, Stored())
    {
      host.SetSize(this, width, height);
      host.SetPosition(this, x, y);
    }
  }

  class Manager {
    var stackMin: seq<Win>
    var index: nat
    var idCounter: nat
    /** `is_fullscreen`; `None` while it is still `undefined`. */
    var isFullscreen: Option<bool>
    var lastFocus: Win?
    const prefixRequest: string
    const prefixExit: string
    const host: Host
    /** Per element that has been focused, its `z-index` style. */
    var zIndex: map<Win, nat>
    /** Per element, its `title` attribute: the hover hint of a minimized window. */
    var hint: map<Win, string>
    /** The elements whose transition is switched off, for a gesture in progress. */
    var still: set<Win>
    /** The windows constructed and not yet closed. */
    ghost var windows: set<Win>

    /** The minimized stack holds exactly the minimized windows, once each, and only they show a hover hint. */
    ghost predicate StackValid()
      reads `stackMin, `hint, `windows, windows`min
    {
      NoDup(stackMin) &&
      (forall i :: 0 <= i < |stackMin| ==> stackMin[i] in windows) &&
      (forall w :: w in windows ==> (w.min <==> w in stackMin)) &&
      (forall w :: w in windows && !w.min ==> w in hint && hint[w] == "")
    }

    /** `index` is the highest `z-index` handed out, and the focused window holds it alone. */
    ghost predicate FocusValid()
      reads `zIndex, `index, `lastFocus, `windows
    {
      (forall w :: w in zIndex ==> zIndex[w] <= index) &&
      (lastFocus != null ==>
        lastFocus in windows && lastFocus in zIndex && zIndex[lastFocus] == index && index > 0 &&
        forall w :: w in zIndex && w != lastFocus ==> zIndex[w] < index)
    }

    /** No window is both minimized and maximized; a fullscreen icon or flag implies a detected request method. */
    ghost predicate WinsValid()
      reads `windows, `isFullscreen, windows`min, windows`max
    {
      (forall w :: w in windows ==> !(w.min && w.max)) &&
      (forall w :: w in windows && FullscreenIcon in w.actions ==> prefixRequest != "") &&
      (isFullscreen == Some(true) ==> prefixRequest != "") &&
      (prefixRequest != "" ==> prefixExit != "")
    }

    ghost predicate Valid()
      reads this, windows`min, windows`max
    {
      StackValid() && FocusValid() && WinsValid()
    }

    /** The module state before any window exists; `setup` probes the platform's `offered` request methods. */
    constructor (offered: set<string>)
      ensures Valid() && windows == {} && stackMin == [] && fresh(host)
      ensures host.shown == map[] && host.calls == [] && zIndex == map[] && hint == map[] && still == {}
      ensures index == 0 && idCounter == 0 && isFullscreen == None && lastFocus == null
      ensures prefixRequest == Prefix.DetectRequest(offered) && prefixExit == Prefix.ExitName(prefixRequest)
    {
      stackMin := [];
      index, idCounter := 0, 0;
      isFullscreen := None;
      lastFocus := null;
      prefixRequest := Prefix.DetectRequest(offered);
      prefixExit := Prefix.ExitName(Prefix.DetectRequest(offered));
      host := new Host();
      zIndex, hint, still := map[], map[], {};
      windows := {};
      Prefix.ExitOfDetected(offered);
    }

    /**
     * `update_min_stack(owner)`: render every member into a slot computed
     * from the owner's viewport and insets, with `_skip_update`, so the
     * members' stored geometry is kept.
     */
    method UpdateMinStack(owner: Win)
      requires NoDup(stackMin)
      modifies host
      ensures host.shown == Layout(old(host.shown), stackMin, |stackMin|, owner.Limits())
      ensures forall i :: 0 <= i < |stackMin| ==> host.Shown(stackMin[i]) == Slot(i, |stackMin|, owner.Limits())
      ensures forall v :: v !in stackMin ==> host.Shown(v) == Lookup(old(host.shown), v)
      ensures host.calls == old(host.calls) + LayoutEvents(stackMin, |stackMin|, owner.Limits())
    {
      var s, b := stackMin, owner.Limits();
      var n := |s|;
      for i := 0 to n
        invariant host.shown == Layout(old(host.shown), s, i, b)
        invariant host.calls == old(host.calls) + LayoutEvents(s, i, b)
      {
        var slot := Slot(i, n, b);
        host.SetSize(s[i], slot.w, slot.h);
        host.SetPosition(s[i], slot.x, slot.y);
      }
      LayoutPlaces(old(host.shown), s, n, b);
      assert s[..n] == s;
    }

    /** `remove_min_stack(w)`: take `w` off the stack, lay out the rest, clear its hint. */
    method RemoveMinStack(w: Win)
      requires Valid() && w in windows && w.min
      modifies `stackMin, `hint, w`min, host
      ensures Valid()
      ensures stackMin == Without(old(stackMin), w) && w !in stackMin
      ensures !w.min && hint == old(hint)[w := ""]
      ensures host.shown == Layout(old(host.shown), stackMin, |stackMin|, w.Limits())
      ensures host.calls == old(host.calls) + LayoutEvents(stackMin, |stackMin|, w.Limits())
    {
      WithoutMember(stackMin, w);
      ghost var before := stackMin;
      stackMin := Without(stackMin, w);
      forall i | 0 <= i < |stackMin| ensures stackMin[i] in windows {
        assert stackMin[i] in before;
      }
      // As in `PushMinStack`, the layout does not read the flag or the hint.
      w.min := false;
      hint := hint[w := ""];
      forall v | v in windows ensures v.min <==> v in stackMin {
        if v != w {
          assert v.min == old(v.min);
        }
      }
      assert StackValid();
      UpdateMinStack(w);
    }

    /** `focus()`: a window not already focused gets the next `z-index`; `onblur` of the previous one fires before its own `onfocus`. */
    method Focus(w: Win)
      requires Valid() && w in windows
      modifies `index, `lastFocus, `zIndex, host
      ensures Valid()
      ensures lastFocus == w && w in zIndex
      ensures forall v :: v in zIndex && v != w ==> zIndex[v] < zIndex[w]
      ensures host.shown == old(host.shown)
      ensures old(lastFocus) == w ==> index == old(index) && zIndex == old(zIndex) && host.calls == old(host.calls)
      ensures old(lastFocus) != w ==>
        index == old(index) + 1 && zIndex == old(zIndex)[w := index] &&
        host.calls == old(host.calls) + FocusEvents(old(lastFocus), w)
    {
      if lastFocus != w {
        // The callbacks only observe the events; recording them after the
        // bookkeeping leaves the same state and the same event order.
        var prev := lastFocus;
        index := index + 1;
        zIndex := zIndex[w := index];
        lastFocus := w;
        forall v | v in zIndex && v != w ensures zIndex[v] < index {
          assert zIndex[v] == old(zIndex)[v] <= old(index);
        }
        assert Valid();
        host.Notify(FocusEvents(prev, w));
      }
    }

    /** `cancel_fullscreen`: clear the flag; ask the platform to leave fullscreen only when it reports being in it (`has`). */
    method CancelFullscreen(has: bool) returns (exited: bool)
      requires Valid() && isFullscreen == Some(true)
      modifies `isFullscreen, host
      ensures Valid()
      ensures prefixExit != ""
      ensures isFullscreen == Some(false) && exited == has
      ensures host.shown == old(host.shown)
      ensures host.calls == old(host.calls) + (if has then [FullscreenExited(prefixExit)] else [])
    {
      isFullscreen := Some(false);
      exited := false;
      if has {
        host.Record(FullscreenExited(prefixExit));
        exited := true;
      }
    }

    /**
     * `this.body[prefix_request]()` followed by setting the flag; with no
     * request method detected the call throws before the flag is set.
     */
    method RequestFullscreen(w: Win) returns (threw: bool)
      requires Valid()
      modifies `isFullscreen, host
      ensures Valid()
      ensures threw == (prefixRequest == "")
      ensures host.shown == old(host.shown)
      ensures threw ==> isFullscreen == old(isFullscreen) && host.calls == old(host.calls)
      ensures !threw ==> isFullscreen == Some(true) && host.calls == old(host.calls) + [FullscreenRequested(w, prefixRequest)]
    {
      if prefixRequest == "" {
        threw := true;
      } else {
        host.Record(FullscreenRequested(w, prefixRequest));
        isFullscreen := Some(true);
        threw := false;
      }
    }

    /** `if(this.max){ ... this.max = false; }` */
    method ClearMax(w: Win)
      requires Valid() && w in windows
      modifies w`max
      ensures Valid() && !w.max
    {
      if w.max {
        w.max := false;
      }
    }

    /** The minimizing branch of `minimize`: push `w`, lay out the stack, show its title as the hover hint. */
    method PushMinStack(w: Win)
      requires Valid() && w in windows && !w.min && !w.max
      modifies `stackMin, `hint, w`min, host
      ensures Valid()
      ensures w.min && stackMin == old(stackMin) + [w] && hint == old(hint)[w := w.title]
      ensures host.shown == Layout(old(host.shown), stackMin, |stackMin|, w.Limits())
      ensures host.calls == old(host.calls) + LayoutEvents(stackMin, |stackMin|, w.Limits())
    {
      // The layout reads only the stack and the owner's bounds, so setting
      // the hint and the flag before it, not after, leaves the same state.
      PushFresh(stackMin, w);
      stackMin := stackMin + [w];
      hint := hint[w := w.title];
      w.min := true;
      forall v | v in windows ensures v.min <==> v in stackMin {
        if v != w {
          assert v.min == old(v.min);
        }
      }
      assert StackValid();
      UpdateMinStack(w);
    }

    /** `remove_min_stack(w)` followed by `resize().move()`: the window shows its stored geometry again. */
    method RestoreFromStack(w: Win)
      requires Valid() && w in windows && w.min
      modifies `stackMin, `hint, w`min, host
      ensures Valid()
      ensures !w.min && stackMin == Without(old(stackMin), w) && hint == old(hint)[w := ""]
      ensures host.shown == Layout(old(host.shown), stackMin, |stackMin|, w.Limits())[w := w.Stored()]
      ensures host.calls == old(host.calls) + LayoutEvents(stackMin, |stackMin|, w.Limits()) + RenderEvents(w, w.Stored())
    {
      RemoveMinStack(w);
      w.Rerender(host);
    }

    /**
     * The part of `minimize(state)` after fullscreen is left: restore a
     * minimized window unless `state` is `true`, minimize a normal one
     * unless `state` is `false`, and clear `max`. The stored geometry is
     * never touched, so a restored window shows exactly what it showed
     * before it was minimized.
     */
    method ToggleMin(w: Win, state: Option<bool>)
      requires Valid() && w in windows
      modifies `stackMin, `hint, w`min, w`max, host
      ensures Valid() && !w.max
      ensures old(w.min) && state != Some(true) ==>
        !w.min && stackMin == Without(old(stackMin), w) && hint == old(hint)[w := ""] &&
        host.shown == Layout(old(host.shown), stackMin, |stackMin|, w.Limits())[w := w.Stored()] &&
        host.calls == old(host.calls) + LayoutEvents(stackMin, |stackMin|, w.Limits()) + RenderEvents(w, w.Stored())
      ensures !old(w.min) && state != Some(false) ==>
        w.min && stackMin == old(stackMin) + [w] && hint == old(hint)[w := w.title] &&
        host.shown == Layout(old(host.shown), stackMin, |stackMin|, w.Limits()) &&
        host.calls == old(host.calls) + LayoutEvents(stackMin, |stackMin|, w.Limits())
      ensures (if old(w.min) then state == Some(true) else state == Some(false)) ==>
        w.min == old(w.min) && stackMin == old(stackMin) && hint == old(hint) &&
        host.shown == old(host.shown) && host.calls == old(host.calls)
    {
      // `max` is cleared last in the source; neither branch reads it, and a
      // minimized window is never maximized, so clearing it first is the same.
      ClearMax(w);
      if state != Some(true) && w.min {
        RestoreFromStack(w);
      } else if state != Some(false) && !w.min {
        PushMinStack(w);
      }
    }

    /** `minimize(state)`: leave fullscreen when the flag is set, then `ToggleMin`. */
    method Minimize(w: Win, state: Option<bool>, has: bool)
      requires Valid() && w in windows
      modifies `isFullscreen, `stackMin, `hint, w`min, w`max, host
      ensures Valid() && !w.max
      ensures isFullscreen == (if old(isFullscreen) == Some(true) then Some(false) else old(isFullscreen))
      ensures var exit := ExitCalls(old(isFullscreen), has, prefixExit);
        old(w.min) && state != Some(true) ==>
          !w.min && stackMin == Without(old(stackMin), w) && hint == old(hint)[w := ""] &&
          host.shown == Layout(old(host.shown), stackMin, |stackMin|, w.Limits())[w := w.Stored()] &&
          host.calls == old(host.calls) + exit + LayoutEvents(stackMin, |stackMin|, w.Limits()) + RenderEvents(w, w.Stored())
      ensures var exit := ExitCalls(old(isFullscreen), has, prefixExit);
        !old(w.min) && state != Some(false) ==>
          w.min && stackMin == old(stackMin) + [w] && hint == old(hint)[w := w.title] &&
          host.shown == Layout(old(host.shown), stackMin, |stackMin|, w.Limits()) &&
          host.calls == old(host.calls) + exit + LayoutEvents(stackMin, |stackMin|, w.Limits())
      ensures var exit := ExitCalls(old(isFullscreen), has, prefixExit);
        (if old(w.min) then state == Some(true) else state == Some(false)) ==>
          w.min == old(w.min) && stackMin == old(stackMin) && hint == old(hint) &&
          host.shown == old(host.shown) && host.calls == old(host.calls) + exit
    {
      if isFullscreen == Some(true) {
        var _ := CancelFullscreen(has);
      }
      assert host.calls == old(host.calls) + ExitCalls(old(isFullscreen), has, prefixExit);
      ToggleMin(w, state);
    }

    /** The toggle half of `maximize`: flip `max` and show either the inset-reduced viewport or the stored geometry. */
    method FlipMax(w: Win)
      requires Valid() && w in windows && !w.min
      modifies w`max, host
      ensures Valid() && w.max == !old(w.max)
      ensures var r := if w.max then w.MaxRect() else w.Stored();
        host.shown == old(host.shown)[w := r] && host.calls == old(host.calls) + RenderEvents(w, r)
    {
      w.max := !w.max;
      if w.max {
        host.SetSize(w, w.rootW - w.left - w.right, w.rootH - w.top - w.bottom - 1.0);
        host.SetPosition(w, w.left, w.top);
      } else {
        w.Rerender(host);
      }
    }

    /**
     * `maximize(state)`: unless `state` equals the current `max`, take the
     * window off the minimized stack and toggle `max`. Only what is shown
     * changes: the stored geometry is kept for the restore.
     */
    method Maximize(w: Win, state: Option<bool>)
      requires Valid() && w in windows
      modifies `stackMin, `hint, w`min, w`max, host
      ensures Valid()
      ensures state == Some(old(w.max)) ==>
        w.max == old(w.max) && w.min == old(w.min) && stackMin == old(stackMin) && hint == old(hint) &&
        host.shown == old(host.shown) && host.calls == old(host.calls)
      ensures state != Some(old(w.max)) ==>
        w.max == !old(w.max) && !w.min &&
        stackMin == (if old(w.min) then Without(old(stackMin), w) else old(stackMin)) &&
        hint == (if old(w.min) then old(hint)[w := ""] else old(hint))
      ensures state != Some(old(w.max)) ==>
        var r := if w.max then w.MaxRect() else w.Stored();
        var laid := if old(w.min) then Layout(old(host.shown), stackMin, |stackMin|, w.Limits()) else old(host.shown);
        host.shown == laid[w := r] &&
        host.calls == old(host.calls) + (if old(w.min) then LayoutEvents(stackMin, |stackMin|, w.Limits()) else []) + RenderEvents(w, r)
    {
      if state.None? || state.value != w.max {
        if w.min {
          RemoveMinStack(w);
        }
        FlipMax(w);
      }
    }

    /** `!is_fullscreen || !cancel_fullscreen(this)` guarding a request: exit when possible, otherwise request. */
    method SwitchFullscreen(w: Win, has: bool) returns (threw: bool)
      requires Valid()
      modifies `isFullscreen, host
      ensures Valid() && host.shown == old(host.shown)
      ensures threw == (old(isFullscreen) != Some(true) && prefixRequest == "")
      ensures threw ==> isFullscreen == old(isFullscreen) && host.calls == old(host.calls)
      ensures !threw ==>
        isFullscreen == Some(!(old(isFullscreen) == Some(true) && has)) &&
        host.calls == old(host.calls) + SwitchCalls(old(isFullscreen), has, w, prefixRequest, prefixExit)
    {
      if isFullscreen != Some(true) {
        threw := RequestFullscreen(w);
      } else {
        var exited := CancelFullscreen(has);
        threw := false;
        if !exited {
          threw := RequestFullscreen(w);
        }
      }
    }

    /** The first step of `fullscreen`: a minimized window shows its stored geometry and leaves the stack. */
    method LeaveStack(w: Win)
      requires Valid() && w in windows
      modifies `stackMin, `hint, w`min, host
      ensures Valid() && !w.min
      ensures stackMin == (if old(w.min) then Without(old(stackMin), w) else old(stackMin))
      ensures hint == (if old(w.min) then old(hint)[w := ""] else old(hint))
      ensures old(w.min) ==>
        host.shown == Layout(old(host.shown)[w := w.Stored()], stackMin, |stackMin|, w.Limits()) &&
        host.calls == old(host.calls) + RenderEvents(w, w.Stored()) + LayoutEvents(stackMin, |stackMin|, w.Limits())
      ensures !old(w.min) ==> host.shown == old(host.shown) && host.calls == old(host.calls)
    {
      if w.min {
        w.Rerender(host);
        RemoveMinStack(w);
      }
    }

    /**
     * `fullscreen(state)`: unless `state` equals the flag, leave the stack,
     * then exit fullscreen if the flag is set and the platform reports it,
     * otherwise request it. Exactly one of the two calls is made; with no
     * request method detected the request throws (`threw`) and the flag
     * keeps its value.
     */
    method Fullscreen(w: Win, state: Option<bool>, has: bool) returns (threw: bool)
      requires Valid() && w in windows
      modifies `isFullscreen, `stackMin, `hint, w`min, host
      ensures Valid()
      ensures !(state.None? || Some(state.value) != old(isFullscreen)) ==>
        !threw && isFullscreen == old(isFullscreen) && stackMin == old(stackMin) && w.min == old(w.min) &&
        hint == old(hint) && host.shown == old(host.shown) && host.calls == old(host.calls)
      ensures state.None? || Some(state.value) != old(isFullscreen) ==>
        !w.min && stackMin == (if old(w.min) then Without(old(stackMin), w) else old(stackMin)) &&
        hint == (if old(w.min) then old(hint)[w := ""] else old(hint)) &&
        threw == (old(isFullscreen) != Some(true) && prefixRequest == "") &&
        isFullscreen == (if threw then old(isFullscreen) else Some(!(old(isFullscreen) == Some(true) && has))) &&
        host.shown == (if old(w.min) then Layout(old(host.shown)[w := w.Stored()], stackMin, |stackMin|, w.Limits()) else old(host.shown))
      ensures (state.None? || Some(state.value) != old(isFullscreen)) && old(w.min) ==>
        var render := RenderEvents(w, w.Stored());
        var layout := LayoutEvents(stackMin, |stackMin|, w.Limits());
        if threw then host.calls == old(host.calls) + render + layout
        else host.calls == old(host.calls) + render + layout + SwitchCalls(old(isFullscreen), has, w, prefixRequest, prefixExit)
      ensures (state.None? || Some(state.value) != old(isFullscreen)) && !old(w.min) ==>
        if threw then host.calls == old(host.calls)
        else host.calls == old(host.calls) + SwitchCalls(old(isFullscreen), has, w, prefixRequest, prefixExit)
    {
      threw := false;
      if state.None? || Some(state.value) != isFullscreen {
        LeaveStack(w);
        threw := SwitchFullscreen(w, has);
      }
    }

    /**
     * `close()`: leave the stack, fire `onclose`, remove the element and
     * forget the focus if `w` held it. The drag listeners on the page are
     * not detached (`anchors` is kept).
     */
    method Close(w: Win)
      requires Valid() && w in windows
      modifies `stackMin, `hint, `zIndex, `lastFocus, `still, `windows, w`min, host
      ensures Valid() && windows == old(windows) - {w}
      ensures stackMin == (if old(w.min) then Without(old(stackMin), w) else old(stackMin))
      ensures lastFocus == (if old(lastFocus) == w then null else old(lastFocus))
      ensures !w.min && hint == old(hint) - {w} && zIndex == old(zIndex) - {w} && still == old(still) - {w}
      ensures host.shown == (if old(w.min) then Layout(old(host.shown), stackMin, |stackMin|, w.Limits()) else old(host.shown)) - {w}
      ensures index == old(index) && isFullscreen == old(isFullscreen)
      ensures host.calls == old(host.calls) +
        (if old(w.min) then LayoutEvents(stackMin, |stackMin|, w.Limits()) else []) +
        (if OnClose in w.handlers then [Closed(w)] else [])
    {
      Unstack(w);
      host.Dispose(w, if OnClose in w.handlers then [Closed(w)] else []);
      Forget(w);
    }

    /** The first step of `close()`: a minimized window leaves the stack and the rest is laid out again. */
    method Unstack(w: Win)
      requires Valid() && w in windows
      modifies `stackMin, `hint, w`min, host
      ensures Valid() && !w.min
      ensures stackMin == (if old(w.min) then Without(old(stackMin), w) else old(stackMin))
      ensures hint == (if old(w.min) then old(hint)[w := ""] else old(hint))
      ensures host.shown == (if old(w.min) then Layout(old(host.shown), stackMin, |stackMin|, w.Limits()) else old(host.shown))
      ensures host.calls == old(host.calls) + (if old(w.min) then LayoutEvents(stackMin, |stackMin|, w.Limits()) else [])
    {
      if w.min {
        RemoveMinStack(w);
      }
    }

    /** The bookkeeping half of `close()`: the window leaves the manager's maps and the focus. */
    method Forget(w: Win)
      requires Valid() && w in windows && !w.min
      modifies `hint, `zIndex, `lastFocus, `still, `windows
      ensures Valid() && windows == old(windows) - {w}
      ensures lastFocus == (if old(lastFocus) == w then null else old(lastFocus))
      ensures hint == old(hint) - {w} && zIndex == old(zIndex) - {w} && still == old(still) - {w}
    {
      hint := hint - {w};
      zIndex := zIndex - {w};
      still := still - {w};
      if lastFocus == w {
        lastFocus := null;
      }
      windows := windows - {w};
    }

    /** A new window joins the manager: no hover hint, not minimized, not yet focused. */
    method Adopt(w: Win)
      requires Valid() && w !in windows && !w.min && !w.max && w !in zIndex
      requires FullscreenIcon in w.actions ==> prefixRequest != ""
      modifies `windows, `hint
      ensures Valid() && windows == old(windows) + {w} && hint == old(hint)[w := ""]
    {
      hint := hint[w := ""];
      windows := windows + {w};
    }

    /**
     * `new WinBox(params, _title)`: resolve the arguments against the viewport
     * (`clientW` x `clientH`), take the next id unless one is given, register
     * the icon actions, render maximized or at the stored geometry, and focus.
     */
    method Create(a: Args, clientW: real, clientH: real) returns (w: Win)
      requires Valid()
      modifies `idCounter, `windows, `hint, `zIndex, `index, `lastFocus, `stackMin, host
      ensures Valid() && fresh(w) && windows == old(windows) + {w}
      ensures var c := Resolve(a).1;
        var ins := ResolveInsets(c, clientW, clientH);
        w.title == Resolve(a).0 && (w.id, idCounter) == ResolveId(c.id, old(idCounter)) &&
        Insets(w.top, w.left, w.bottom, w.right) == ins && w.Stored() == ResolveRect(c, ins, clientW, clientH) &&
        w.rootW == clientW && w.rootH == clientH && w.handlers == c.handlers &&
        w.actions == Registered(c.modal, prefixRequest) && w.content == SelectContent(c) &&
        w.max == c.max && !w.min && w.anchors == map[]
      ensures stackMin == old(stackMin) && hint == old(hint)[w := ""]
      ensures lastFocus == w && index == old(index) + 1 && zIndex == old(zIndex)[w := index]
      ensures host.shown == old(host.shown)[w := if w.max then w.MaxRect() else w.Stored()]
      ensures w.max ==> host.calls == old(host.calls) + RenderEvents(w, w.MaxRect()) + FocusEvents(old(lastFocus), w)
      ensures !w.max ==>
        host.calls == old(host.calls) + MoveEvents(w, w.x, w.y) + ResizeEvents(w, w.width, w.height) + FocusEvents(old(lastFocus), w)
    {
      w := Build(a, clientW, clientH);
      Present(w, Resolve(a).1.max);
    }

    /** The constructing half of `new WinBox`: a fresh window from the resolved arguments joins the manager. */
    method Build(a: Args, clientW: real, clientH: real) returns (w: Win)
      requires Valid()
      modifies `idCounter, `windows, `hint
      ensures Valid() && fresh(w) && windows == old(windows) + {w} && hint == old(hint)[w := ""]
      ensures var c := Resolve(a).1;
        var ins := ResolveInsets(c, clientW, clientH);
        w.title == Resolve(a).0 && (w.id, idCounter) == ResolveId(c.id, old(idCounter)) &&
        Insets(w.top, w.left, w.bottom, w.right) == ins && w.Stored() == ResolveRect(c, ins, clientW, clientH) &&
        w.rootW == clientW && w.rootH == clientH && w.handlers == c.handlers &&
        w.actions == Registered(c.modal, prefixRequest) && w.content == SelectContent(c) &&
        !w.max && !w.min && w.anchors == map[]
    {
      var r := Resolve(a);
      var c := r.1;
      var ins := ResolveInsets(c, clientW, clientH);
      var g := ResolveRect(c, ins, clientW, clientH);
      var ident := ResolveId(c.id, idCounter);
      w := new Win(ident.0, r.0, g, ins, clientW, clientH, c.handlers, Registered(c.modal, prefixRequest), SelectContent(c));
      idCounter := ident.1;
      Adopt(w);
    }

    /** The rendering half of `new WinBox`: `maximize()` or `move().resize()`, then `focus()`. */
    method Present(w: Win, max: bool)
      requires Valid() && w in windows && !w.min && !w.max && lastFocus != w
      modifies `zIndex, `index, `lastFocus, `stackMin, `hint, w`min, w`max, w`x, w`y, w`width, w`height, host
      ensures Valid() && w.max == max && !w.min && stackMin == old(stackMin) && hint == old(hint)
      ensures w.Stored() == old(w.Stored())
      ensures lastFocus == w && index == old(index) + 1 && zIndex == old(zIndex)[w := index]
      ensures host.shown == old(host.shown)[w := if max then w.MaxRect() else w.Stored()]
      ensures max ==> host.calls == old(host.calls) + RenderEvents(w, w.MaxRect()) + FocusEvents(old(lastFocus), w)
      ensures !max ==>
        host.calls == old(host.calls) + MoveEvents(w, w.x, w.y) + ResizeEvents(w, w.width, w.height) + FocusEvents(old(lastFocus), w)
    {
      ShowNew(w, max);
      Focus(w);
    }

    /** `maximize()` or `move().resize()`: a new window shows the viewport or its stored geometry. */
    method ShowNew(w: Win, max: bool)
      requires Valid() && w in windows && !w.min && !w.max
      modifies `stackMin, `hint, w`min, w`max, w`x, w`y, w`width, w`height, host
      ensures Valid() && w.max == max && !w.min && stackMin == old(stackMin) && hint == old(hint)
      ensures w.Stored() == old(w.Stored())
      ensures host.shown == old(host.shown)[w := if max then w.MaxRect() else w.Stored()]
      ensures max ==> host.calls == old(host.calls) + RenderEvents(w, w.MaxRect())
      ensures !max ==> host.calls == old(host.calls) + MoveEvents(w, w.x, w.y) + ResizeEvents(w, w.width, w.height)
    {
      if max {
        Maximize(w, None);
      } else {
        ghost var was := Lookup(host.shown, w);
        w.Move(Current, host);
        w.Resize(Current, host);
        UpdateTwice(old(host.shown), w, was.(x := w.x, y := w.y), w.Stored());
      }
    }

    /** The `mousedown` on a drag bar of a normal window: switch the transition off, attach the listeners, refresh the viewport, focus. */
    method Grab(w: Win, h: Handle, px: real, py: real, clientW: real, clientH: real)
      requires Valid() && w in windows
      modifies `still, `index, `lastFocus, `zIndex, w`anchors, w`rootW, w`rootH, host
      ensures Valid() && w in still && still == old(still) + {w}
      ensures w.anchors == old(w.anchors)[h := Point(px, py)] && w.rootW == clientW && w.rootH == clientH
      ensures lastFocus == w && w in zIndex && forall v :: v in zIndex && v != w ==> zIndex[v] < zIndex[w]
      ensures old(lastFocus) == w ==> index == old(index) && zIndex == old(zIndex)
      ensures old(lastFocus) != w ==> index == old(index) + 1 && zIndex == old(zIndex)[w := index]
      ensures host.shown == old(host.shown)
      ensures host.calls == old(host.calls) + (if old(lastFocus) == w then [] else FocusEvents(old(lastFocus), w))
    {
      still := still + {w};
      w.anchors := w.anchors[h := Point(px, py)];
      w.Init(clientW, clientH);
      Focus(w);
    }

    /**
     * `mousedown` on a drag bar: a minimized window is restored instead; a
     * normal one starts the gesture; a maximized one ignores the press.
     */
    method DragDown(w: Win, h: Handle, px: real, py: real, clientW: real, clientH: real)
      requires Valid() && w in windows && DragBar(h) in w.actions
      modifies `stackMin, `hint, `still, `index, `lastFocus, `zIndex, w`min, w`anchors, w`rootW, w`rootH, host
      ensures Valid()
      ensures old(w.min) ==>
        !w.min && stackMin == Without(old(stackMin), w) && hint == old(hint)[w := ""] &&
        w.anchors == old(w.anchors) && w.rootW == old(w.rootW) && w.rootH == old(w.rootH) && still == old(still) &&
        lastFocus == old(lastFocus) && index == old(index) && zIndex == old(zIndex) &&
        host.shown == Layout(old(host.shown), stackMin, |stackMin|, w.Limits())[w := w.Stored()] &&
        host.calls == old(host.calls) + LayoutEvents(stackMin, |stackMin|, w.Limits()) + RenderEvents(w, w.Stored())
      ensures !old(w.min) && !w.max ==>
        !w.min && stackMin == old(stackMin) && hint == old(hint) &&
        still == old(still) + {w} && w.anchors == old(w.anchors)[h := Point(px, py)] &&
        w.rootW == clientW && w.rootH == clientH && lastFocus == w &&
        (old(lastFocus) == w ==> index == old(index) && zIndex == old(zIndex)) &&
        (old(lastFocus) != w ==> index == old(index) + 1 && zIndex == old(zIndex)[w := index]) &&
        host.shown == old(host.shown) &&
        host.calls == old(host.calls) + (if old(lastFocus) == w then [] else FocusEvents(old(lastFocus), w))
      ensures !old(w.min) && w.max ==>
        !w.min && stackMin == old(stackMin) && hint == old(hint) &&
        w.anchors == old(w.anchors) && w.rootW == old(w.rootW) && w.rootH == old(w.rootH) && still == old(still) &&
        lastFocus == old(lastFocus) && index == old(index) && zIndex == old(zIndex) &&
        host.shown == old(host.shown) && host.calls == old(host.calls)
    {
      if w.min {
        RestoreFromStack(w);
      } else if !w.max {
        Grab(w, h, px, py, clientW, clientH);
      }
    }

    /**
     * `mousemove` while the bar `h` is held: displace the stored geometry by
     * the pointer's offset from the last position, clamp it as `Drag.Step`
     * says, show what changed, and remember the pointer. The listener is on
     * the page, so it runs whether or not the window is still open.
     */
    method DragMove(w: Win, h: Handle, px: real, py: real)
      requires h in w.anchors
      modifies w`x, w`y, w`width, w`height, w`anchors, host
      ensures old(Valid()) ==> Valid()
      ensures w.Stored() == Step(old(w.Stored()), w.Limits(), h, px - old(w.anchors[h].x), py - old(w.anchors[h].y))
      ensures w.anchors == old(w.anchors)[h := Point(px, py)]
      ensures host.shown == ShowPosition(ShowSize(old(host.shown), w, h, w.width, w.height), w, h, w.x, w.y)
      ensures host.calls == old(host.calls) + SizeEvents(w, h, w.width, w.height) + PositionEvents(w, h, w.x, w.y)
    {
      w.DragTo(h, px, py, host);
    }

    /** `mouseup` ending the gesture on bar `h`: switch the transition back on and detach the listeners. */
    method DragUp(w: Win, h: Handle)
      requires h in w.anchors
      modifies `still, w`anchors
      ensures old(Valid()) ==> Valid()
      ensures still == old(still) - {w} && w.anchors == old(w.anchors) - {h}
    {
      still := still - {w};
      w.anchors := w.anchors - {h};
    }

    /** The minimize icon: `self.init().minimize()` toggles the minimized state. */
    method ClickMinimize(w: Win, clientW: real, clientH: real, has: bool)
      requires Valid() && w in windows && MinimizeIcon in w.actions
      modifies `isFullscreen, `stackMin, `hint, w`min, w`max, w`rootW, w`rootH, host
      ensures Valid() && w.rootW == clientW && w.rootH == clientH
      ensures w.min == !old(w.min) && !w.max
    {
      w.Init(clientW, clientH);
      Minimize(w, None, has);
    }

    /** The maximize icon: `self.init().maximize()` toggles the maximized state and always leaves the stack. */
    method ClickMaximize(w: Win, clientW: real, clientH: real)
      requires Valid() && w in windows && MaximizeIcon in w.actions
      modifies `stackMin, `hint, w`min, w`max, w`rootW, w`rootH, host
      ensures Valid() && w.rootW == clientW && w.rootH == clientH
      ensures w.max == !old(w.max) && !w.min
      ensures Lookup(host.shown, w) == if w.max then w.MaxRect() else w.Stored()
    {
      w.Init(clientW, clientH);
      Maximize(w, None);
    }

    /** The fullscreen icon exists only when a request method was detected, so clicking it never throws. */
    method ClickFullscreen(w: Win, has: bool)
      requires Valid() && w in windows && FullscreenIcon in w.actions
      modifies `isFullscreen, `stackMin, `hint, w`min, host
      ensures Valid() && !w.min
      ensures isFullscreen == Some(!(old(isFullscreen) == Some(true) && has))
    {
      var threw := Fullscreen(w, None, has);
    }

    /** Maximizing and then restoring a normal window shows its stored geometry again, in the same place on the stack. */
    method MaximizeRoundTrip(w: Win)
      requires Valid() && w in windows && !w.min && !w.max
      modifies `stackMin, `hint, w`min, w`max, host
      ensures Valid() && !w.min && !w.max && stackMin == old(stackMin) && hint == old(hint)
      ensures host.shown == old(host.shown)[w := w.Stored()]
    {
      Maximize(w, Some(true));
      Maximize(w, Some(false));
    }

    /** Minimizing and then restoring a normal window gives back the stack and shows its stored geometry again. */
    method MinimizeRoundTrip(w: Win, has: bool)
      requires Valid() && w in windows && !w.min && !w.max
      modifies `isFullscreen, `stackMin, `hint, w`min, w`max, host
      ensures Valid() && !w.min && stackMin == old(stackMin) && hint == old(hint)
      ensures isFullscreen == (if old(isFullscreen) == Some(true) then Some(false) else old(isFullscreen))
      ensures Lookup(host.shown, w) == w.Stored()
    {
      Minimize(w, Some(true), has);
      WithoutPushed(old(stackMin), w);
      Minimize(w, Some(false), has);
      UpdateTwice(old(hint), w, w.title, "");
      UpdateSame(old(hint), w);
    }
  }
}
