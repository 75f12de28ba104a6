# Smithay client toolkit: window negotiation, global binding and surface bookkeeping

This project is a Dafny model of the core of the Wayland client toolkit
(`smithay-client-toolkit`), with proofs about that model. It covers five
pieces of the toolkit:

- **The window** (`window.dfy`, module `Window`). A window receives
  `xdg_toplevel.configure` events from the compositor. It takes the
  client-side frame's borders away from the suggested size, clamps the result
  to the window's minimum and maximum, and stashes the pre-maximize size while
  the window is maximized, fullscreen or tiled. It decides whether the frame
  is hidden, from `set_decorate` and from the mode the server picks through
  xdg-decoration-unstable-v1. It also tracks the seats that have a pointer,
  forwards the frame's requests to the shell surface or to the application,
  and implements the public mutators (`resize`, `set_min_size`,
  `set_max_size`, `set_resizable`, `set_title`, …). `Window` and `Frame` are
  classes. The shell surface, the application's callback and the decoration
  object are append-only logs on the window: `requests`, `events` and
  `decorationRequests`. The frame's `add_borders`, `subtract_borders` and
  `location` are arbitrary functions fixed when the frame is created.
  The pure pieces are functions: the clamp, the stash rule as `OnConfigure`,
  the `set_decorate` table, seat tracking, title truncation and forwarding.
  The class methods are proved against them.
- **Version negotiation in the `sctk!` registry handler** (`registry.dfy`,
  module `Registry`). The version ranges requested by every field are
  intersected. As written, an intersection whose start is beyond its end is
  rejected, while one whose start equals its end is accepted (see
  Findings). A global is bound only if the advertised version reaches the
  intersected start, and it is bound at `min(advertised, end - 1)`. Every
  field is then told of the new global.
- **`NoEventGlobal`** (`global.dfy`, module `Global`). This is a container for
  one bound global, driven by `new_global` and `remove_global`.
- **The compositor state** (`compositor.dfy`, module `Compositor`). A surface
  tracks the outputs it is on and the largest scale factor among them. This
  module also models `create_surface`, `create_subsurface` and the
  compositor's registry bookkeeping.
- **The data-device state** (`data_device.dfy`, module `DataDevice`). It keeps
  the manager global and a table of seats keyed by global name.

`util.dfy` (module `Util`) holds `Option`, `Result` and `Vec::retain`
(`Retain`, `RemoveAll`), with the facts about them that the other modules use.

Integers are unbounded. The `u32 as i32` casts of window sizes are made
harmless by the precondition `FitsI32`. The sizes the application passes in
must fit in an `i32`, as the casts assume.

Where the code and its own documentation disagree, the model follows the
code. The registry handler (`Registry.OnGlobal`) negotiates as written, and
the configure handler (`Window.OnConfigure`, `Window.Window.OnShellConfigure`)
runs the clamp as written. The corrected definitions of the Findings sit
beside them: `Registry.OnGlobalChecked`, and `Window.Clamp`, which
`Window.ClampAgreesWithoutZeroMaximum` shows differs from the written clamp
only where a maximum axis is 0. Other disagreements:

- With no decoration object, `set_decorate(None)` hides the frame
  (src/window/mod.rs:549-551). The frame is not always shown.
- The initial size given to `create_window` is stored as it is
  (src/window/mod.rs:370). So "the current size is at least 1 in each
  dimension" holds only after the first `resize`.
- Nothing makes the minimum size at most the maximum. The clamp bounds are
  therefore stated conditionally.

## Model

| member | source | states |
|---|---|---|
| Util.Retain | src/compositor.rs:206 | `Vec::retain`: no longer than its input, and every element kept satisfies the predicate |
| Util.RetainMembers | src/data_device/mod.rs:186 | an element survives retaining iff it was present and is kept |
| Util.RetainAll | src/data_device/mod.rs:186 | retaining when every element is kept changes nothing |
| Util.RetainConcat | src/data_device/mod.rs:186 | retaining distributes over concatenation, so the relative order of what is kept is preserved |
| Util.RetainCounts | src/compositor.rs:206 | every copy of a kept element survives (multiplicities are equal) |
| Util.RetainKeepsNoDuplicates | src/window/mod.rs:359 | retaining from a duplicate-free list leaves it duplicate-free |
| Util.RemoveAll | src/window/mod.rs:359 | `retain(|s| s != x)`: `x` is gone, every other element's membership is unchanged, a list without `x` is unchanged, and duplicate-freedom is kept |
| Registry.MaxStart | src/lib.rs:90-97 | the largest requested start: at least every start and equal to one of them |
| Registry.MinEnd | src/lib.rs:90-101 | the smallest requested end: at most every end and equal to one of them |
| Registry.Reduce | src/lib.rs:90-101 | `reduce` of the ranges: `None` exactly when there are none (its value is given by `Registry.ReduceIsIntersection`) |
| Registry.FoldMeetBounds | src/lib.rs:90-101 | the left `reduce` from an accumulator yields the max of starts and the min of ends |
| Registry.ReduceIsIntersection | src/lib.rs:90-101 | `reduce` is `None` exactly for no ranges; otherwise it is `MaxStart..MinEnd` |
| Registry.AcceptableRange | src/lib.rs:90-104 | rejected iff there are no ranges or start > end; otherwise the intersection, contained in every requested range's bounds |
| Registry.Negotiate | src/lib.rs:90-112 | as written: error iff start > end; binds iff start ≤ advertised version; bound at the advertised version when that is below the end, otherwise at `end - 1`; inside every range when start < end |
| Registry.TouchingRangesBindOutside | src/lib.rs:103-112 | ranges `1..3` and `3..5` with version 5 are accepted and bound at 2, which lies outside `3..5` |
| Registry.NegotiateChecked | src/lib.rs:90-112 | error iff start ≥ end; binds iff start ≤ advertised; bound at the advertised version when that is below the end, otherwise at the highest accepted version `end - 1`; the bound version is in every requested range |
| Registry.NewGlobalAll | src/lib.rs:116-118 | one `new_global` per field of the group, with the same name and version, in field order |
| Registry.RemoveGlobalAll | src/lib.rs:124-128 | one `remove_global` per field of the group |
| Registry.OnGlobal | src/lib.rs:77-122 | as written: the event fails exactly when some matching group's ranges never intersect (start > end); otherwise every notification is for the advertised name and a field of a matching group, at exactly the version `Negotiate` binds for that group |
| Registry.OnGlobalNotifiesEveryField | src/lib.rs:107-118 | when no matching group's ranges fail to intersect, the event succeeds, and a matching group that binds at `v` has every field receive `new_global(name, v)` |
| Registry.OnGlobalContains | src/lib.rs:107-118 | the same, for the groups from a given index on |
| Registry.OnGlobalChecked | src/lib.rs:77-122 | the intended handler: fails exactly when some matching group's negotiation (start ≥ end) fails; every notification carries its group's negotiated version, which lies in every range that group requested |
| Registry.TouchingRangesHandlerBinds | src/lib.rs:103-118 | as written, ranges `1..3` and `3..5` at version 5 notify both fields of a global bound at 2 |
| Registry.TouchingRangesHandlerRejects | src/lib.rs:103-118 | the intended handler rejects that same event |
| Registry.OnGlobalRemove | src/lib.rs:124-128 | every field of every group is told of the removal and only of it, with exactly as many notifications as there are fields |
| Global.NoEventGlobal.constructor | src/global.rs:52-54 | no global, no name, not destroyed, the given version range |
| Global.NoEventGlobal.Version | src/global.rs:94-96 | the configured range, unchanged |
| Global.NoEventGlobal.Get | src/global.rs:64-66 | the held global |
| Global.NoEventGlobal.Destroyed | src/global.rs:57-59 | the `destroyed` flag |
| Global.NoEventGlobal.NewGlobal | src/global.rs:98-104 | keeps a live held global; otherwise stores the new one; never records the name |
| Global.NoEventGlobal.RemoveGlobal | src/global.rs:106-111 | clears and marks destroyed only on a name match; since no name is ever stored, nothing changes |
| Global.RemovalIgnored | src/global.rs:98-111 | advertising global 7 and then removing it leaves it held and not destroyed |
| Global.NamedGlobal.constructor | src/global.rs:52-54 | as `new`, with the invariant that a held global has its name recorded |
| Global.NamedGlobal.Get | src/global.rs:64-66 | the held global |
| Global.NamedGlobal.Destroyed | src/global.rs:57-59 | the `destroyed` flag |
| Global.NamedGlobal.NewGlobal | src/global.rs:98-104 | as `new_global`, but the stored global's name is recorded |
| Global.NamedGlobal.RemoveGlobal | src/global.rs:106-111 | clears the global and marks it destroyed exactly when the name matches |
| Global.RemovalHonoured | src/global.rs:98-111 | with the name recorded, the same advertise-then-remove releases the global and reports it destroyed |
| Compositor.LargestFactor | src/compositor.rs:215-218 | `None` iff no tracked output has a scale; otherwise at least every known scale and equal to one of them |
| Compositor.NextOutputs | src/compositor.rs:200-208 | `Enter` appends the output; `Leave` removes it and keeps exactly the others |
| Compositor.SurfaceData.constructor | src/compositor.rs:92-96 | scale factor 1, no outputs, no role |
| Compositor.SurfaceData.HandleEvent | src/compositor.rs:190-231 | outputs updated; factor becomes the largest known scale, or is unchanged if none; notified iff the factor changed, with the new factor |
| Compositor.CompositorState.constructor | src/compositor.rs:74-76 | no compositor and no subcompositor bound |
| Compositor.CompositorState.CreateSurface | src/compositor.rs:78-99 | `MissingCompositorGlobal` iff no compositor; otherwise fresh surface data with factor 1, no outputs, no role |
| Compositor.CompositorState.CreateSubsurface | src/compositor.rs:102-118 | `MissingSubcompositorGlobal` iff no subcompositor; otherwise joins the given parent and surface |
| Compositor.CompositorState.NewGlobal | src/compositor.rs:328-364 | compositor bound at `min(version, 4)`, subcompositor at 1, both with the global's name; others ignored |
| Compositor.CompositorState.RemoveGlobal | src/compositor.rs:366-376 | the compositor is cleared only when its name matches; the subcompositor is never cleared |
| DataDevice.WithoutGlobal | src/data_device/mod.rs:186 | no entry of the removed name remains; every other entry's membership is unchanged |
| DataDevice.DataDeviceState.constructor | src/data_device/mod.rs:23-25 | no manager, empty seat table |
| DataDevice.DataDeviceState.GetDataDevice | src/data_device/mod.rs:27-40 | `Err` iff no manager is bound |
| DataDevice.DataDeviceState.NewGlobal | src/data_device/mod.rs:143-175 | manager bound at `min(version, 3)`; a seat appends `(name, seat)` bound at `min(version, MAX_SEAT_VERSION)` |
| DataDevice.DataDeviceState.RemoveGlobal | src/data_device/mod.rs:177-187 | manager cleared only on a name match; every seat entry of that name removed, the others kept in order |
| DataDevice.SeatAddRemove | src/data_device/mod.rs:162-186 | adding a seat global and removing it restores the previous table |
| Window.ShouldStash | src/window/mod.rs:284-298 | true iff some state is maximized, fullscreen or tiled |
| Window.WindowStateFromBool | src/window/mod.rs:53-61 | `Active` iff true |
| Window.BoolFromWindowState | src/window/mod.rs:63-70 | true iff `Active` |
| Window.WindowStateRoundTrip | src/window/mod.rs:53-70 | the two conversions are inverse to each other |
| Window.ClampAxisAsWritten | src/window/mod.rs:270-281 | as written: at least 1; at most a maximum that is at least 1; at least the minimum when it is at most the maximum |
| Window.ClampAsWritten | src/window/mod.rs:270-281 | the clamp as written yields at least 1 in each dimension |
| Window.ZeroMaximumPinsAxis | src/window/mod.rs:270-281 | with a maximum width of 0, a suggested width of 800 becomes 1 |
| Window.ClampAxis | src/window/mod.rs:270-281 | at least 1; at most a nonzero maximum; at least the minimum when consistent; a maximum of 0 does not limit; an in-bounds value is unchanged |
| Window.Clamp | src/window/mod.rs:270-281 | the clamped size is ≥ 1, ≤ a nonzero maximum and ≥ the minimum when min ≤ max (or max is 0 or unset), in each dimension |
| Window.ClampAgreesWithoutZeroMaximum | src/window/mod.rs:270-281 | the corrected clamp equals the one written unless a maximum axis is 0, and with a zero maximum width it differs for every content width above 1 |
| Window.OnConfigure | src/window/mod.rs:262-316 | stash held iff constrained; the first stash is kept; restored when unconstrained with no suggestion; a suggestion is always answered with the clamp as written applied to the size without borders; nothing is answered in a constrained state without a suggestion; bounds and current size unchanged |
| Window.OnResize | src/window/mod.rs:601-607 | current size becomes `(max(w,1), max(h,1))`; nothing else changes |
| Window.ConstrainedRunKeepsStash | src/window/mod.rs:300-305 | any run of constrained configures and resizes keeps the stash taken first |
| Window.RestoreAfterConstrainedRun | src/window/mod.rs:300-310 | entering a constrained state, any burst of constrained configures and resizes, then leaving with no size restores exactly the size before entering, and empties the stash |
| Window.MaximizeThenRestore | src/window/mod.rs:262-316 | 800x600 maximized to 1920x1080 is told 1920x1080, then 800x600 again after release |
| Window.ConfiguredSizeWithinBounds | src/window/mod.rs:270-281 | with consistent, nonzero bounds every answered size lies within them |
| Window.Decorate | src/window/mod.rs:500-555 | the decision table: without an object the frame is hidden iff `None`; with one, `ClientSide` destroys it and shows the frame, `None` asks for client side and hides it, the others send `set_mode(ServerSide)`/`unset_mode` |
| Window.HiddenForMode | src/window/mod.rs:414-428 | server side hides; client side hides iff decorations are not wanted or the window is gone |
| Window.LastBoundary | src/window/mod.rs:464-468 | the largest character boundary at or below the bound |
| Window.TruncateTitle | src/window/mod.rs:461-473 | a prefix of at most 1024 bytes ending on a character boundary, maximal among such cuts; unchanged when already short |
| Window.TrackSeat | src/window/mod.rs:353-362 | the seat is tracked iff it has a pointer and is not defunct; others unchanged; no duplicates; the frame is told exactly when the tracking changes |
| Window.InitialSeats | src/window/mod.rs:340-349 | the qualifying seats, at most one per listed seat |
| Window.InitialSeatsMembers | src/window/mod.rs:340-349 | a seat is tracked iff some listed entry for it qualifies |
| Window.InitialSeatsStep | src/window/mod.rs:342-348 | one more listed seat adds at most that seat, at the end |
| Window.AddedCalls | src/window/mod.rs:347 | one `new_seat` per tracked seat, in order |
| Window.AddedCallsStep | src/window/mod.rs:347 | announcing one more seat appends one call |
| Window.InitialSeatsNoDuplicates | src/window/mod.rs:340-349 | distinct listed seats give a duplicate-free tracked list |
| Window.SeatFlapping | src/window/mod.rs:353-362 | gaining, losing and regaining a pointer: tracked at the end, announced added, removed, added |
| Window.Forward | src/window/mod.rs:222-237 | `Close` and `Refresh` go to the application, every other request to the shell with the triggering serial |
| Window.ForwardLossless | src/window/mod.rs:224-237 | the frame request can be read back from what was forwarded, so distinct requests are never forwarded alike |
| Window.ConfigureEvents | src/window/mod.rs:317-321 | `Refresh` first iff the frame asked for it, then exactly one `Configure` |
| Window.Frame.constructor | src/window/mod.rs:768-775 | a frame with the given border geometry and visibility and no seat calls |
| Window.Frame.SetStates | src/window/mod.rs:784 | the frame's states replaced, nothing else |
| Window.Frame.SetHidden | src/window/mod.rs:788 | the frame's visibility set, nothing else |
| Window.Frame.SetResizable | src/window/mod.rs:791 | the resize hint set, nothing else |
| Window.Frame.Resize | src/window/mod.rs:802 | the frame's size set, nothing else |
| Window.Frame.SetTitle | src/window/mod.rs:819 | the frame's title set, nothing else |
| Window.Frame.Redraw | src/window/mod.rs:804 | one more redraw, nothing else |
| Window.Frame.SeatCalls | src/window/mod.rs:795-798 | `new_seat`/`remove_seat` calls appended in order, nothing else |
| Window.Window.constructor | src/window/mod.rs:242-373 | frame shown without a manager and otherwise untouched in visibility; frame resized to the initial size; qualifying seats tracked and announced; no other frame field changes; min size and geometry (with borders) sent; inner state `(MIN_WINDOW_SIZE, None, initial, None, true)`; a decoration object iff manager and xdg shell |
| Window.AnnounceSeats | src/window/mod.rs:340-349 | the tracked seats are the qualifying ones, the frame is told of each in order, and no other frame field changes |
| Window.CreateWindow | src/window/mod.rs:216-240 | the frame's initialisation error is returned as it is; otherwise a fresh valid live window with the initial inner state, the constructor's requests, seats, decoration object and frame effects |
| Window.Window.OnShellConfigure | src/window/mod.rs:253-321 | nothing once the window is gone; otherwise the frame takes the states and nothing else, the inner state follows `OnConfigure`, and `ConfigureEvents` are appended; the invariant is kept |
| Window.Window.OnShellClose | src/window/mod.rs:322-324 | exactly one `Close` while the window lives, none after |
| Window.Window.OnFrameRequest | src/window/mod.rs:222-237 | the request is forwarded as `Forward` says while the window lives; dropped after |
| Window.Window.OnDecorationMode | src/window/mod.rs:411-429 | the frame's visibility becomes `HiddenForMode` (also after the window is dropped, since the decoration object outlives it); no other frame field changes |
| Window.Window.OnSeatChange | src/window/mod.rs:353-362 | while the window lives, seats and frame seat calls follow `TrackSeat` and no other frame field changes; after it is dropped (the listener with it) nothing changes; no duplicates are kept |
| Window.Window.Refresh | src/window/mod.rs:450-452 | one frame redraw, and no other frame field changes |
| Window.Window.SetTitle | src/window/mod.rs:461-474 | frame and shell receive the same truncated title; no other frame field changes |
| Window.Window.SetAppId | src/window/mod.rs:482-484 | the app id forwarded as it is |
| Window.Window.SetDecorate | src/window/mod.rs:500-555 | `decorated` iff not `None` (while the window lives); frame visibility, decoration requests and the object's existence follow `Decorate`; without an object the frame is hidden iff not decorated; no other frame field changes |
| Window.Window.SetResizable | src/window/mod.rs:569-590 | frame told and nothing else of it changes; re-enabling re-sends min and max with borders; disabling pins both to the current size with borders; nothing sent once gone |
| Window.Window.Resize | src/window/mod.rs:601-614 | inner state follows `OnResize`; frame resized to the floored size and nothing else of it changes; exactly one geometry request with borders |
| Window.Window.SetMinSize | src/window/mod.rs:655-662 | `None` means `MIN_WINDOW_SIZE`; the bound with borders is sent; stored while the window lives |
| Window.Window.SetMaxSize | src/window/mod.rs:676-682 | the bound with borders (or `None`) is sent; stored while the window lives |
| Window.Window.Request | src/window/mod.rs:616-641 | `set_maximized`, `unset_maximized`, `set_minimized`, `set_fullscreen`, `unset_fullscreen` and `start_interactive_move` forward one request and change nothing else (`start_interactive_move` is at src/window/mod.rs:703-705) |
| Window.Window.Drop | src/window/mod.rs:708-712 | the inner state is gone: later shell, frame and seat callbacks do nothing; the decoration handler still runs, treating decorations as unwanted |

## Left out

- Wayland proxies, `quick_assign`, `Attached`, `DispatchData` and the connection are left out. Requests, frame calls and callback events are logs.
- The `Rc<RefCell<…>>` sharing between the window and its closures is left out. The window is one object whose handlers run one at a time.
- Frame drawing, themes and `set_frame_config` are left out. The frame is abstract: its border functions are fixed when it is created, and `set_states` returns the redraw flag, which becomes a parameter of `OnShellConfigure`.
- `Window::surface` is a plain accessor and is not modelled.
- `start_interactive_move` is covered by `Window.Window.Request`, like the other one-line forwarders.
- The seat data (`has_pointer`, `defunct`) comes from src/seat/mod.rs, which is not part of this model. It is a parameter (`SeatInfo`).
- `OutputData` comes from the output module, which is not part of this model. Its scale factors are the `scales` map parameter of `HandleEvent`.
- `MAX_SEAT_VERSION` is defined in a module that is not part of this model, so it is a parameter of `DataDevice.DataDeviceState.NewGlobal`.
- `get_data_device` ends in `todo!()` once a manager is found. Only its error path is modelled; on success, `GetDataDevice` returns the bound manager.
- `bind_cached`/`bind_once` caching, protocol errors from proxy creation, and the `expect` panics on bind failure are left out.
- Window.Window.constructor: requires the listed seats to be distinct, as they are distinct proxies.
- Window.Window.Resize: requires sizes that fit in `i32`. The `u32 as i32` wrap-around of larger sizes is not modelled.
- Window.Window.SetMinSize: requires sizes that fit in `i32`, for the same reason.
- Window.Window.SetMaxSize: requires sizes that fit in `i32`, for the same reason.
- Window.Window.OnShellConfigure: requires a suggested size that fits in `i32`, for the same reason.
- Registry.Negotiate: requires every requested end to be at least 1, because `end - 1` underflows for an end of 0.
- Registry.OnGlobal: requires every range requested for the advertised interface to end at 1 or later, as `Registry.Negotiate` does; it returns the error where the source panics.
- Registry.OnGlobalRemove: the order of the notifications (group by group, fields in order) is not stated; only which notifications there are and how many.
- The `sctk!` macro's code generation (`ProvidesGlobal`, `delegate_dispatch!`) is left out. Interfaces are strings, and fields are numbered within each group.
- The mutex and atomics in `SurfaceData` are plain fields, because the handler logic is sequential.
- The event loop, seat handling, data offers and the examples are left out. They are I/O plumbing, or they are bodies that end in `todo!()`.
- The corrected clamp (`Window.Clamp`) is not used by the configure handler, which keeps the clamp as written; `set_max_size` likewise forwards `add_borders(0, …)` for a zero axis.

## Findings

| source | as written | input that shows it | evidently intended | confidence | as-written member | corrected member |
|---|---|---|---|---|---|---|
| src/lib.rs:103-112 | an intersection with `start == end` is accepted and the global is bound at `end - 1` | ranges `1..3` and `3..5`, advertised version 5: bound at 2, outside `3..5` | reject an empty intersection (`start >= end`), so the bound version lies in every range, as src/global.rs:26 promises | not executed | Registry.Negotiate, Registry.TouchingRangesBindOutside, Registry.OnGlobal, Registry.TouchingRangesHandlerBinds | Registry.NegotiateChecked, Registry.OnGlobalChecked, Registry.TouchingRangesHandlerRejects |
| src/window/mod.rs:276-280 | a maximum axis of 0 clamps that axis to 0, then to 1 | maximum `(0, 700)`, suggestion 800x600: width 1 | a 0 maximum leaves that axis unlimited, as the `set_max_size` documentation says (src/window/mod.rs:669-670) | not executed | Window.ClampAsWritten, Window.ZeroMaximumPinsAxis | Window.Clamp, Window.ClampAgreesWithoutZeroMaximum |
| src/global.rs:98-111 | `new_global` never records the global's name, so `remove_global` never matches | advertise global 7, then remove global 7: still held, not destroyed | record the name in `new_global`, so that the matching removal releases the global | not executed | Global.NoEventGlobal.NewGlobal, Global.RemovalIgnored | Global.NamedGlobal.NewGlobal, Global.RemovalHonoured |
