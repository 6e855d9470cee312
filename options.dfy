/**
 * Resolution of a new window's configuration in the WinBox constructor
 * (src/js/winbox.js:29-193) and the listeners `register` attaches
 * (src/js/winbox.js:260-312).
 */
module Options {
  import opened Wrappers
  import opened Decimal
  import opened Geometry
  import Drag

  /** The optional callbacks a window may be given. */
  datatype Callback = OnClose | OnFocus | OnBlur | OnMove | OnResize

  /** What the body of a window shows; `mount` wins over `html`, which wins over `url`. */
  datatype Content = Blank | Mounted(node: string) | Html(markup: string) | Url(address: string)

  /** The listeners `register` attaches to a window. */
  datatype Action = DragBar(h: Drag.Handle) | MinimizeIcon | MaximizeIcon | FullscreenIcon | FocusOnPress | CloseIcon

  /** The option object; a missing property is `None`. */
  datatype Config = Config(
    id: Option<string>, title: Option<string>,
    mount: Option<string>, html: Option<string>, url: Option<string>,
    width: Option<Size>, height: Option<Size>, x: Option<Dim>, y: Option<Dim>,
    top: Option<Size>, left: Option<Size>, bottom: Option<Size>, right: Option<Size>,
    max: bool, modal: bool, handlers: set<Callback>)

  const Empty: Config :=
    Config(None, None, None, None, None, None, None, None, None, None, None, None, None, false, false, {})

  /** The constructor's argument forms: `WinBox()`, `WinBox(title)`, `WinBox(options)`, `WinBox(title, options)`. */
  datatype Args = NoArgs | TitleArg(t: string) | ConfigArg(c: Config) | TitleConfigArgs(t: string, c: Config)

  /** A string property that is present and non-empty (truthy). */
  predicate Set(s: Option<string>) { s.Some? && s.value != "" }

  /** A geometry property that is present and truthy. */
  predicate Given(d: Option<Dim>) { d.Some? && Truthy(d.value) }

  /** The JavaScript values the constructor tells apart in an argument: `undefined`, a string, an option object. */
  datatype JsValue = Undefined | Text(s: string) | Object(o: Config)

  predicate JsTruthy(v: JsValue) { v.Object? || (v.Text? && v.s != "") }

  /** The `(params, _title)` pair each argument form passes. */
  function Arguments(a: Args): (JsValue, JsValue) {
    match a
    case NoArgs => (Undefined, Undefined)
    case TitleArg(t) => (Text(t), Undefined)
    case ConfigArg(c) => (Object(c), Undefined)
    case TitleConfigArgs(t, c) => (Text(t), Object(c))
  }

  /**
   * The title and the options the constructor goes on with, computed the
   * way src/js/winbox.js:66-127 does, step by step on `(params, _title)`.
   */
  function Resolve(a: Args): (r: (string, Config))
    ensures a.ConfigArg? ==> r == (if Set(a.c.title) then a.c.title.value else "", a.c)
    ensures a.TitleConfigArgs? && a.t != "" ==> r == (a.t, a.c)
    ensures a.TitleConfigArgs? && a.t == "" ==> r == ("", Empty)
    ensures a.TitleArg? ==> r == (a.t, Empty)
    ensures a.NoArgs? ==> r == ("", Empty)
  {
    var params, second := Arguments(a).0, Arguments(a).1;
    // A falsy `params` skips lines 66-125: the title stays undefined and no option is read.
    if !JsTruthy(params) then ("", Empty)
    else
      // `if(_title){ title = params; params = _title; }`
      var swapped := if JsTruthy(second) then Some(params.s) else None;
      var opts := if JsTruthy(second) then second else params;
      // `typeof params === "string"`: the string is the title.
      var named := if opts.Text? then Some(opts.s) else swapped;
      // Otherwise the object's properties are read; `title = title || params["title"]`.
      var c := if opts.Object? then opts.o else Empty;
      var title := if opts.Object? && !Set(named) then c.title else named;
      // `setTitle(title || "")`.
      (if Set(title) then title.value else "", c)
  }

  /** An inset: parsed against the viewport span when given, else 0. */
  function Inset(d: Option<Size>, span: real): real {
    if Given(d) then Parse(d.value, span, 0.0) else 0.0
  }

  /** Insets: top and bottom against `root_h`, left and right against `root_w` (src/js/winbox.js:132-135). */
  function ResolveInsets(c: Config, rootW: real, rootH: real): (r: Insets)
    ensures !Given(c.top) && !Given(c.left) && !Given(c.bottom) && !Given(c.right) ==> r == Insets(0.0, 0.0, 0.0, 0.0)
    ensures !Given(c.top) ==> r.top == 0.0
    ensures !Given(c.bottom) ==> r.bottom == 0.0
    ensures !Given(c.left) ==> r.left == 0.0
    ensures !Given(c.right) ==> r.right == 0.0
    ensures Given(c.top) ==> r.top == Parse(c.top.value, rootH, 0.0)
    ensures Given(c.bottom) ==> r.bottom == Parse(c.bottom.value, rootH, 0.0)
    ensures Given(c.left) ==> r.left == Parse(c.left.value, rootW, 0.0)
    ensures Given(c.right) ==> r.right == Parse(c.right.value, rootW, 0.0)
  {
    Insets(Inset(c.top, rootH), Inset(c.left, rootW), Inset(c.bottom, rootH), Inset(c.right, rootW))
  }

  /** `x`/`y` after `params.x || x`, where a modal window begins with "center". */
  function Position(d: Option<Dim>, modal: bool): Option<Dim> {
    if Given(d) then d else if modal then Some(Center) else None
  }

  /**
   * The stored geometry of a new window (src/js/winbox.js:137-144): sizes
   * within the inset-reduced span, defaulting to half of it; positions
   * defaulting to the left and top insets.
   */
  function ResolveRect(c: Config, ins: Insets, rootW: real, rootH: real): (r: Rect)
    ensures !Given(c.width) ==> r.w == (rootW - ins.left - ins.right) / 2.0
    ensures !Given(c.height) ==> r.h == (rootH - ins.top - ins.bottom) / 2.0
    ensures Given(c.width) ==> r.w == Parse(c.width.value, rootW - ins.left - ins.right, 0.0)
    ensures Given(c.height) ==> r.h == Parse(c.height.value, rootH - ins.top - ins.bottom, 0.0)
    ensures !Given(c.x) && !c.modal ==> r.x == ins.left
    ensures !Given(c.y) && !c.modal ==> r.y == ins.top
    ensures !Given(c.x) && c.modal ==> r.x == (rootW - ins.left - ins.right - r.w) / 2.0
    ensures !Given(c.y) && c.modal ==> r.y == (rootH - ins.top - ins.bottom - r.h) / 2.0
    ensures Given(c.x) ==> r.x == Parse(c.x.value, rootW - ins.left - ins.right, r.w)
    ensures Given(c.y) ==> r.y == Parse(c.y.value, rootH - ins.top - ins.bottom, r.h)
  {
    var maxW := rootW - ins.left - ins.right;
    var maxH := rootH - ins.top - ins.bottom;
    var w := if Given(c.width) then Parse(c.width.value, maxW, 0.0) else maxW / 2.0;
    var h := if Given(c.height) then Parse(c.height.value, maxH, 0.0) else maxH / 2.0;
    var x := Position(c.x, c.modal);
    var y := Position(c.y, c.modal);
    Rect(if x.Some? then Parse(x.value, maxW, w) else ins.left,
         if y.Some? then Parse(y.value, maxH, h) else ins.top, w, h)
  }

  /** Without sizes or positions, a window is half the inset-reduced viewport, placed at the top-left inset. */
  lemma DefaultRect(c: Config, rootW: real, rootH: real)
    requires !Given(c.width) && !Given(c.height) && !Given(c.x) && !Given(c.y) && !c.modal
    ensures var ins := ResolveInsets(c, rootW, rootH);
      ResolveRect(c, ins, rootW, rootH) ==
        Rect(ins.left, ins.top, (rootW - ins.left - ins.right) / 2.0, (rootH - ins.top - ins.bottom) / 2.0)
  {
  }

  /** With no options on a 1000x800 viewport: 500x400 at the origin. */
  lemma EmptyConfigRect()
    ensures ResolveInsets(Empty, 1000.0, 800.0) == Insets(0.0, 0.0, 0.0, 0.0)
    ensures ResolveRect(Empty, Insets(0.0, 0.0, 0.0, 0.0), 1000.0, 800.0) == Rect(0.0, 0.0, 500.0, 400.0)
  {
  }

  /**
   * A modal window without its own position is centred in the inset-reduced
   * span; the centre is measured from 0, not from the left or top inset.
   */
  lemma ModalCentres(c: Config, ins: Insets, rootW: real, rootH: real)
    requires c.modal && !Given(c.x) && !Given(c.y)
    ensures var r := ResolveRect(c, ins, rootW, rootH);
      r.x == (rootW - ins.left - ins.right - r.w) / 2.0 &&
      r.y == (rootH - ins.top - ins.bottom - r.h) / 2.0
  {
  }

  /** A position given as a truthy value wins over modal centring. */
  lemma GivenPositionWins(c: Config, ins: Insets, rootW: real, rootH: real)
    requires Given(c.x)
    ensures var r := ResolveRect(c, ins, rootW, rootH);
      r.x == Parse(c.x.value, rootW - ins.left - ins.right, r.w)
  {
  }

  /** `id || ("winbox-" + (++id_counter))`: the id and the counter afterwards. */
  function ResolveId(id: Option<string>, counter: nat): (r: (string, nat))
    ensures Set(id) ==> r == (id.value, counter)
    ensures !Set(id) ==> r.1 == counter + 1
    ensures !Set(id) ==> r.0 == "winbox-" + Render(counter + 1)
  {
    if Set(id) then (id.value, counter) else ("winbox-" + Render(counter + 1), counter + 1)
  }

  /** Automatic ids from different counter values differ. */
  lemma AutoIdsDistinct(id1: Option<string>, id2: Option<string>, a: nat, b: nat)
    requires !Set(id1) && !Set(id2) && a != b
    ensures ResolveId(id1, a).0 != ResolveId(id2, b).0
  {
    RenderInjective(a + 1, b + 1);
    var p := "winbox-";
    assert (p + Render(a + 1))[|p|..] == Render(a + 1);
    assert (p + Render(b + 1))[|p|..] == Render(b + 1);
  }

  /** The content source, by precedence `mount`, then a non-empty `html`, then a non-empty `url`. */
  function SelectContent(c: Config): (r: Content)
    ensures r.Mounted? <==> c.mount.Some?
    ensures r.Html? <==> c.mount.None? && Set(c.html)
    ensures r.Url? <==> c.mount.None? && !Set(c.html) && Set(c.url)
    ensures r.Blank? <==> c.mount.None? && !Set(c.html) && !Set(c.url)
    ensures r.Mounted? ==> r.node == c.mount.value
    ensures r.Html? ==> r.markup == c.html.value
    ensures r.Url? ==> r.address == c.url.value
  {
    if c.mount.Some? then Mounted(c.mount.value)
    else if Set(c.html) then Html(c.html.value)
    else if Set(c.url) then Url(c.url.value)
    else Blank
  }

  /**
   * The listeners `register` attaches: every window can be closed; a modal
   * window gets nothing else; the fullscreen icon is wired only when the
   * platform offers a request method.
   */
  function Registered(modal: bool, prefixRequest: string): (r: set<Action>)
    ensures CloseIcon in r
    ensures modal ==> r == {CloseIcon}
    ensures !modal ==> MinimizeIcon in r && MaximizeIcon in r && FocusOnPress in r
    ensures !modal ==> forall h: Drag.Handle :: DragBar(h) in r
    ensures FullscreenIcon in r <==> !modal && prefixRequest != ""
  {
    if modal then {CloseIcon}
    else
      (set h: Drag.Handle | true :: DragBar(h)) + {MinimizeIcon, MaximizeIcon, FocusOnPress, CloseIcon} +
      (if prefixRequest != "" then {FullscreenIcon} else {})
  }
}
