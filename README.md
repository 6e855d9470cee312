# WinBox window manager, modelled in Dafny

WinBox is a browser library of HTML windows. This project models its core, `src/js/winbox.js`, and proves properties of the model.

- **Configuration.** The `WinBox` constructor resolves a window's options: title, id, insets, size, position, content and the listeners it registers.
- **Geometry parser.** `parse` reads pixels, percentages and `"center"`.
- **Fullscreen detection.** `setup` picks a request method and derives the exit method's name by first-occurrence `String.replace`.
- **Minimized stack.** `stack_min` holds the minimized windows, and `update_min_stack` lays them out in one row.
- **Window operations.** `focus`, `minimize`, `maximize`, `fullscreen`, `close`, `move` and `resize` change the module state and a window's state.
- **Drag gesture.** `mousedown`, `mousemove` and `mouseup` on the title bar and the eight edge bars. Each pointer move is one clamped displacement step.

The modules follow the code's structure:

| module | file | models |
|---|---|---|
| `Decimal` | `decimal.dfy` | number-to-string and string-to-number conversion on naturals, as `parse` and the automatic ids use them; `Value`, the base-10 number a digit string denotes (leading zeros allowed), is the reference meaning against which `Render` (`Decimal.ValueRender`) and the numeric prefix `parse` reads (`Geometry.ToDimNumber`) are proved |
| `Geometry` | `geometry.dfy` | rectangles, insets, the configured dimension forms, and `parse` with its string classification |
| `Drag` | `drag.dfy` | the per-handle displacement and clamping of one `mousemove` step, as pure functions |
| `Options` | `options.dfy` | argument forms, option resolution, id generation, content precedence, registered listeners |
| `MinStack` | `minstack.dfy` | `indexOf`/`splice`/`push` on the stack and the slot layout |
| `Prefix` | `prefix.dfy` | `prefix_request` detection, `String.replace`, and `prefix_exit` |
| `WindowManager` | `manager.dfy` | three classes: `Manager` holds the module globals (`stack_min`, `index`, `id_counter`, `is_fullscreen`, `last_focus`, the prefixes); `Win` holds a window's fields; `Host` holds the page (what each element shows, and the callbacks and Fullscreen API calls in order) |

The window operations are methods with `modifies` frames. Each method states its whole new state, except the few listed under "Left out" as weaker. `Manager.Valid()` is kept by every operation. It says that:

- the stack holds exactly the minimized windows, once each;
- only minimized windows carry a hover title;
- the focused window alone holds the highest `z-index`;
- no window is both minimized and maximized;
- a fullscreen icon, or a set fullscreen flag, implies that a request method was detected.

The document's client size and the platform's fullscreen report (`has_fullscreen()`) are method parameters. So is the set of request methods the body element offers.

### Where the code's behaviour is easy to misread

The model follows the code. These points differ from a natural reading of the library's description, and each one is proved:

- With two or three minimized windows on a 1000-pixel viewport, each is 250 wide, because the width is `Math.min(root_w / n, 250)` (`MinStack.SlotExamples`).
- Dragging the west or north bar can push a window past the viewport. The width and height are clamped before the position, against the position from before the clamp (`Drag.WestDragOverflows`, `Drag.NorthDragOverflows`). Dragging by the title bar or the east, south or south-east bar keeps a fitting window fitting (`Drag.StepKeepsInBounds`).
- A modal window is centred in the inset-reduced span, measured from 0 and not from the left or top inset (`Options.ModalCentres`).
- A leading zero hides the `%` unit: `"050%"` parses as 50 pixels (`Geometry.LeadingZeroHidesPercent`), and in general a number written with a leading zero before further digits is never a percentage (`Geometry.ToDimValue`).
- Removing a window that is not on the stack would drop the stack's last member (`splice(-1, 1)`, `MinStack.WithoutNonMember`). `Manager.Valid()` shows that this case never happens: every caller checks `min` first.
- `close` does not detach the page-level `mousemove`/`mouseup` listeners of a drag in progress. `DragMove` therefore requires nothing of the window's membership.

## Model

| member | source | states |
|---|---|---|
| `Decimal.Render` | src/js/winbox.js:218 | `"" + n` is a non-empty digit string with no leading zero |
| `Decimal.DigitRun` | src/js/winbox.js:217 | the numeric prefix `parseFloat` reads is all digits and is followed by a non-digit or the end |
| `Decimal.ValueRender` | src/js/winbox.js:217-218 | reading back a rendered number gives the number |
| `Decimal.RenderInjective` | src/js/winbox.js:147 | distinct numbers render to distinct strings |
| `Decimal.RenderValue` | src/js/winbox.js:217-218 | `"" + parseFloat(t)` gives back a digit string `t` without a leading zero, and a shorter string when `t` has one |
| `Decimal.DigitRunOfRender` | src/js/winbox.js:217-218 | the numeric prefix of a rendered number followed by a unit is exactly the rendering |
| `Geometry.ToDim` | src/js/winbox.js:215-228 | `"center"` and only it is the centre; every other recognised string starts with a digit, and a percentage ends in `%`; a string is never read as a plain number |
| `Geometry.Parse` | src/js/winbox.js:209-235 | a centred value leaves equal room on both sides of `own` within `base`; a percentage is that share of `base`; a number, or a string read as one, is its value |
| `Geometry.ToDimValue` | src/js/winbox.js:215-228 | a string with a numeric prefix reads as that prefix's value, leading zeros included, and is a percentage exactly when it is that value's rendering followed by `%` alone (so `"007px"` is 7 and `"050%"` is 50 pixels) |
| `Geometry.ToDimNumber` | src/js/winbox.js:215-227 | a number followed by `%` is a percentage; followed by any other unit it is its numeric prefix |
| `Geometry.ToDimNaN` | src/js/winbox.js:217 | a string has no numeric value exactly when it is not `"center"` and does not start with a digit |
| `Geometry.ParseStrings` | src/js/winbox.js:209-235 | `parse` of `"center"`, `n%`, `npx` and `n`: centred offset, `base / 100 * n`, `n`, `n` |
| `Geometry.LeadingZeroHidesPercent` | src/js/winbox.js:217-222 | `"050%"` is read as 50 pixels, not as a percentage |
| `Geometry.ParseExamples` | src/js/winbox.js:209-235 | `"50%"` of 200 is 100; a 40-wide window centred in 200 is at 80; the number 30 is 30 |
| `Drag.Displace` | src/js/winbox.js:428-461 | the title bar moves the window; each east/west/south/north bar changes the size on its axis and keeps the opposite edge fixed; other axes are unchanged |
| `Drag.ClampSize` | src/js/winbox.js:463-476 | `Math.max(Math.min(w, root_w - x - right), 250)` and likewise for the height with 35 and one pixel less: a resized axis at or beyond what the viewport leaves becomes that room (or the minimum, if larger); one at or below the minimum becomes the minimum; one that fits is unchanged; axes the handle does not resize, and the position, are unchanged |
| `Drag.ClampPosition` | src/js/winbox.js:478-491 | `Math.max(Math.min(x, root_w - width - right), left)` and likewise for `y`: a moved axis at or beyond the far edge becomes the edge (or the inset, if larger); one at or before the left or top inset becomes the inset; one that fits is unchanged; axes the handle does not move, and the size, are unchanged |
| `Drag.Step` | src/js/winbox.js:428-491 | after a step, resized axes are at least 250 by 35 and moved axes are at least the left/top inset; axes the handle does not act on are unchanged |
| `Drag.StepUnclamped` | src/js/winbox.js:463-491 | a displacement that already fits is not altered by clamping |
| `Drag.StepKeepsInBounds` | src/js/winbox.js:463-491 | title, east, south and south-east drags keep a fitting window inside the viewport |
| `Drag.WestDragOverflows` | src/js/winbox.js:441-491 | a west drag past the left inset ends wider than the viewport allows |
| `Drag.NorthDragOverflows` | src/js/winbox.js:454-491 | a north drag past the top inset ends taller than the viewport allows |
| `Options.Resolve` | src/js/winbox.js:66-127 | for each argument form, the title and options that the step-by-step `(params, _title)` swap yields: options alone give their own `title` (or `""`); a non-empty title with options gives that title and those options; an empty title with options drops both; a title alone gives that title and no options; no arguments give `""` and no options |
| `Options.ResolveInsets` | src/js/winbox.js:132-135 | each given inset is parsed against `root_h` (top, bottom) or `root_w` (left, right), and each missing one is 0 |
| `Options.ResolveRect` | src/js/winbox.js:137-144 | a missing width or height is half the inset-reduced span, and a given one is parsed against that span; a given `x` or `y` is parsed against the span with the window's own size; a missing one is the left or top inset, or for a modal window the centre of the span |
| `Options.DefaultRect` | src/js/winbox.js:132-144 | without sizes or positions, a window is half the inset-reduced viewport, at the top-left inset |
| `Options.EmptyConfigRect` | src/js/winbox.js:129-144 | with no options on 1000x800, a window is 500x400 at the origin |
| `Options.ModalCentres` | src/js/winbox.js:137-144 | a modal window without a position is centred in the inset-reduced span |
| `Options.GivenPositionWins` | src/js/winbox.js:94-95 | a truthy `x` option overrides modal centring |
| `Options.ResolveId` | src/js/winbox.js:146-147 | a given id is kept with the counter unchanged; otherwise the counter is incremented and the id is `"winbox-"` followed by the new counter's decimal rendering |
| `Options.AutoIdsDistinct` | src/js/winbox.js:147 | ids generated from different counter values differ |
| `Options.SelectContent` | src/js/winbox.js:178-189 | the content is `mount` if given, else a non-empty `html`, else a non-empty `url`, else blank (each case an if-and-only-if), carrying that option's value |
| `Options.Registered` | src/js/winbox.js:260-312 | every window gets the close icon; a modal one nothing else; others all drag bars, minimize, maximize and focus-on-press; the fullscreen icon exactly when a request method exists and the window is not modal |
| `MinStack.IndexOf` | src/js/winbox.js:320 | the first position of the element, or -1 exactly when it is absent |
| `MinStack.SpliceOne` | src/js/winbox.js:320 | `splice(start, 1)`: a start in range removes that element; a negative one counts from the end and is clamped to 0 below; a start past the end removes nothing |
| `MinStack.Without` | src/js/winbox.js:320 | `splice(indexOf(w), 1)`: a member's first occurrence is removed and the stack shortens by one; for a non-member the last element is removed |
| `MinStack.SlotWidth` | src/js/winbox.js:333 | `Math.min(root_w / n, 250)`: at most 250 and the whole row fitting in `root_w`, with one of the two bounds reached |
| `MinStack.Slot` | src/js/winbox.js:336-338 | the slot of member `i`: the slot width, 35 high, `i` widths right of the left inset, with its bottom edge on the bottom inset |
| `MinStack.WithoutMember` | src/js/winbox.js:320 | removing a member keeps the others in order, once each, and shortens the stack by one |
| `MinStack.WithoutNonMember` | src/js/winbox.js:320 | removing a non-member drops the last element |
| `MinStack.PushFresh` | src/js/winbox.js:635 | pushing a window not on the stack keeps it duplicate-free |
| `MinStack.WithoutPushed` | src/js/winbox.js:628-640 | removing the window just pushed gives back the previous stack |
| `MinStack.SlotsTile` | src/js/winbox.js:333-338 | consecutive slots abut on one row, each at most 250 wide |
| `MinStack.SlotsFit` | src/js/winbox.js:333-338 | the row ends within `left + root_w` |
| `MinStack.SlotExamples` | src/js/winbox.js:333 | on a 1000-wide viewport, 2 and 3 windows get 250 each and 5 windows get 200 each |
| `Prefix.Find` | src/js/winbox.js:249-251 | the first occurrence of a pattern, or -1 when there is none |
| `Prefix.ReplaceFirstAtFind` | src/js/winbox.js:249-251 | `replace` substitutes exactly the first occurrence, and changes nothing without one |
| `Prefix.DetectRequest` | src/js/winbox.js:241-245 | the first offered candidate in probe order, or `""` exactly when none is offered |
| `Prefix.ExitName` | src/js/winbox.js:247-252 | the three chained replacements give an empty exit name exactly when there is no request method |
| `Prefix.ExitNames` | src/js/winbox.js:247-252 | the standard, ms, webkit and moz request methods map to `exitFullscreen`, `msExitFullscreen`, `webkitExitFullscreen`, `mozCancelFullscreen`; no request method gives no exit method |
| `Prefix.ExitOfDetected` | src/js/winbox.js:241-252 | a detected request method always has an exit method |
| `WindowManager.LayoutPlaces` | src/js/winbox.js:335-339 | after the layout loop, each member shows its own slot and every other element is unchanged |
| `WindowManager.Host.SetPosition` | src/js/winbox.js:804-806 | the element shows the new position; `onmove` fires with it |
| `WindowManager.Host.SetSize` | src/js/winbox.js:831-834 | the element shows the new size; `onresize` fires with it |
| `WindowManager.Win.constructor` | src/js/winbox.js:149-167 | a new window stores the resolved geometry, insets, callbacks and title, neither minimized nor maximized |
| `WindowManager.Win.Init` | src/js/winbox.js:514-528 | the viewport snapshot becomes the document's client size |
| `WindowManager.Win.SetTitle` | src/js/winbox.js:568-573 | the title is stored |
| `WindowManager.Win.Move` | src/js/winbox.js:791-809 | parsed arguments are stored against the inset-reduced viewport; exact ones are only shown; no arguments show the stored position; `onmove` gets what is shown |
| `WindowManager.Win.Resize` | src/js/winbox.js:818-837 | the same three forms for the size; `onresize` gets what is shown |
| `WindowManager.Win.DisplaceBy` | src/js/winbox.js:428-461 | the stored geometry becomes its `Drag.Displace` |
| `WindowManager.Win.FitSize` | src/js/winbox.js:463-476 | the size is clamped as `Drag.ClampSize`; it is shown, and `onresize` fires, only when the handle resizes |
| `WindowManager.Win.FitPosition` | src/js/winbox.js:478-491 | the position is clamped as `Drag.ClampPosition`; it is shown, and `onmove` fires, only when the handle moves |
| `WindowManager.Win.DragTo` | src/js/winbox.js:410-495 | one pointer move: the stored geometry becomes `Drag.Step` of the pointer's offset from the last position; the pointer is remembered; the changed parts are shown and their callbacks fire |
| `WindowManager.Win.Rerender` | src/js/winbox.js:631 | `resize().move()` shows exactly the stored geometry; `onresize` fires, then `onmove` |
| `WindowManager.Manager.constructor` | src/js/winbox.js:237-253 | the module state before any window: empty stack, `index` 0, the detected request method and the exit method derived from it, invariant established |
| `WindowManager.Manager.UpdateMinStack` | src/js/winbox.js:331-340 | every stack member shows its slot for the owner's bounds; every other element is unchanged; stored geometry is untouched; callbacks fire in stack order |
| `WindowManager.Manager.RemoveMinStack` | src/js/winbox.js:318-325 | the window leaves the stack, the rest is laid out, its hover title is cleared, invariant kept |
| `WindowManager.Manager.Focus` | src/js/winbox.js:601-614 | the window becomes the focused one with the highest `z-index`; if it was not already focused, `index` is incremented and `onblur` of the previous window fires before its `onfocus`; otherwise nothing changes |
| `WindowManager.Manager.CancelFullscreen` | src/js/winbox.js:747-759 | called only while the flag is set, when an exit method exists: the flag is cleared; the exit is requested, and `true` returned, exactly when the platform reports fullscreen |
| `WindowManager.Manager.RequestFullscreen` | src/js/winbox.js:716-717 | the request is made and the flag set; without a detected method the call throws and the flag is kept |
| `WindowManager.Manager.ClearMax` | src/js/winbox.js:642-646 | `max` is cleared |
| `WindowManager.Manager.PushMinStack` | src/js/winbox.js:633-640 | the window is pushed on the stack, the stack laid out, the title becomes its hover title, invariant kept |
| `WindowManager.Manager.RestoreFromStack` | src/js/winbox.js:628-632 | the window leaves the stack and shows its stored geometry again |
| `WindowManager.Manager.ToggleMin` | src/js/winbox.js:628-646 | restore unless `state` is true, minimize unless `state` is false, otherwise nothing; `max` cleared in every case |
| `WindowManager.Manager.Minimize` | src/js/winbox.js:621-649 | leaving fullscreen first when the flag is set, then the three cases of `ToggleMin`, with the calls made in order |
| `WindowManager.Manager.FlipMax` | src/js/winbox.js:665-686 | `max` flips; the window shows the inset-reduced viewport one pixel short, or its stored geometry |
| `WindowManager.Manager.Maximize` | src/js/winbox.js:656-690 | nothing when `state` equals `max`; otherwise the window leaves the stack and `max` flips, with the stored geometry kept |
| `WindowManager.Manager.SwitchFullscreen` | src/js/winbox.js:709-718 | exactly one platform call: exit when the flag is set and the platform reports fullscreen, otherwise a request; throws only without a request method |
| `WindowManager.Manager.LeaveStack` | src/js/winbox.js:701-705 | a minimized window shows its stored geometry, then leaves the stack |
| `WindowManager.Manager.Fullscreen` | src/js/winbox.js:697-729 | nothing when `state` equals the flag; otherwise leave the stack (clearing the hover title of a minimized window) and switch, with the flag and the calls determined by the previous flag and the platform report |
| `WindowManager.Manager.Close` | src/js/winbox.js:765-782 | the window leaves the stack, the maps and the page, and the other entries are unchanged; a minimized window's departure re-lays out the rest of the stack; `onclose` fires after the re-layout; the focus is forgotten only if it held it |
| `WindowManager.Manager.Unstack` | src/js/winbox.js:767-770 | a minimized window leaves the stack and the rest is laid out; otherwise nothing changes |
| `WindowManager.Manager.Forget` | src/js/winbox.js:776-779 | the window leaves the bookkeeping, and the focus if it held it |
| `WindowManager.Manager.Adopt` | src/js/winbox.js:160-161 | a new window joins the manager unminimized, without a hover title, invariant kept |
| `WindowManager.Manager.Create` | src/js/winbox.js:29-193 | a fresh window with the resolved title, id, insets, geometry, callbacks, listeners and content; shown maximized or at its stored geometry; focused with the next `z-index` |
| `WindowManager.Manager.Build` | src/js/winbox.js:127-167 | the window built from the resolved arguments, with the id counter advanced as `Options.ResolveId` says |
| `WindowManager.Manager.Present` | src/js/winbox.js:169-176 | `maximize().focus()` or `move().resize().focus()`, with callbacks in that order |
| `WindowManager.Manager.ShowNew` | src/js/winbox.js:169-176 | a new window shows the viewport (maximized) or its stored geometry, which is kept |
| `WindowManager.Manager.Grab` | src/js/winbox.js:390-406 | gesture start: transition off, pointer remembered, viewport refreshed, window focused (with `index` and `z-index` as `Focus` states) |
| `WindowManager.Manager.DragDown` | src/js/winbox.js:374-408 | a minimized window is restored instead of dragged; a maximized one ignores the press and nothing changes; a normal one starts the gesture; each case with the whole new state |
| `WindowManager.Manager.DragMove` | src/js/winbox.js:410-495 | `Win.DragTo` on the held bar, keeping the manager's invariant |
| `WindowManager.Manager.DragUp` | src/js/winbox.js:497-507 | transition back on and the bar's listeners detached |
| `WindowManager.Manager.ClickMinimize` | src/js/winbox.js:274-278 | after refreshing the viewport, the minimize icon toggles the minimized state and clears `max` |
| `WindowManager.Manager.ClickMaximize` | src/js/winbox.js:280-284 | after refreshing the viewport, the maximize icon toggles `max`, always leaving the stack, and shows the matching geometry |
| `WindowManager.Manager.ClickFullscreen` | src/js/winbox.js:286-293 | the fullscreen icon never throws, because it exists only with a request method |
| `WindowManager.Manager.MaximizeRoundTrip` | src/js/winbox.js:656-690 | maximizing then restoring shows the stored geometry again, with the stack unchanged |
| `WindowManager.Manager.MinimizeRoundTrip` | src/js/winbox.js:621-649 | minimizing then restoring gives back the stack and hover titles, leaves fullscreen as `Minimize` does, and shows the stored geometry again |

## Left out

- Styling and markup are not modelled: the element template, CSS classes (`min`, `max`, `modal`, the `class` option), `background`, `border` and `setBackground`. `disable_animation`/`enable_animation` appear only as the `still` set.
- The mounted content is recorded as a `Content` value. `mount`, `unmount` (also called from `close`), `_backstore` and `setUrl` iframe markup are not modelled, nor is the `root` option with its `appendChild`.
- `has_fullscreen` reads browser state. It is the boolean parameter `has`, and the asynchronous Fullscreen API promise is not modelled.
- `init` reads the document's client size. It is the pair of parameters `clientW`, `clientH`.
- `parseFloat` is modelled on strings whose numeric prefix is a natural number. Signs, decimals, exponents and leading whitespace are not modelled. Plain numeric options are reals, and NaN/Infinity and floating-point rounding are not modelled.
- `"center"` as a width, height or inset is excluded by the `Size` type. The code would produce NaN there.
- Touch events use the same pointer coordinates as mouse events, and `preventEvent` has no modelled effect. helper.js and template.js are not part of this model, so a `mousedown` on a drag bar bubbling to the window's focus listener is not modelled.
- Calling `WinBox(params)` without `new`, and `WinBox.new(params)`, construct `new WinBox(params)`, which is `Create` with the one-argument forms. The two-argument call `WinBox(title, params)` without `new` passes on only `title` and drops the options. That path is not modelled.
- Callbacks (`onfocus`, `onblur`, `onmove`, `onresize`, `onclose`) are recorded as events in `Host.calls`, not run. What a callback could observe through `this` at the moment it fires (for example `last_focus` still being the previous window during `onblur`), and any call it makes back into WinBox, are not modelled. `Focus`, `ToggleMin`, `PushMinStack` and `RemoveMinStack` therefore update their state before recording the callbacks; the events and the final state are the same.
- `move(x)` and `resize(w)` with the second argument left out are not modelled (`Arg` has no such form). There the code stores `x` (or `w`) parsed, stores 0 for the missing `y` (or `height`), sets the style with the text `undefinedpx` and passes `undefined` to `onmove` (or `onresize`).
- Every `Manager` operation requires its window to be open (`w in windows`). Calls on a closed window are not modelled. For example, a second `close()` would fire `onclose` again and then throw when removing the already detached element.
- `setup` runs while `index` is 0, which is before the first window is focused. The model runs it once, in the `Manager` constructor, against a fixed set of offered methods.
- An element's `z-index`, `title` attribute and shown geometry are per-element entries in the `zIndex`, `hint` and `Host.shown` maps. DOM aliasing is not modelled.
- `WindowManager.Manager.ClickMinimize`: states only the toggle and the cleared `max`, not the full new state. `Minimize` states that, called with no `state`.
- `WindowManager.Manager.ClickMaximize`: states only the toggle and what the window shows, not the full new state. `Maximize` states that, called with no `state`.
- `WindowManager.Manager.ClickFullscreen`: states only that the call does not throw and what the flag becomes, not the full new state. `Fullscreen` states that, called with no `state`.
- `WindowManager.Manager.MaximizeRoundTrip`: states the shown geometry and the stack, not the callbacks fired.
- `WindowManager.Manager.MinimizeRoundTrip`: states what the window shows, the stack and the hover titles, not the layout of the other stack members or the callbacks fired.
