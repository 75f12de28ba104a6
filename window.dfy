/** The window (src/window/mod.rs): the negotiation between the size and state
    the compositor suggests in `xdg_toplevel.configure`, the borders drawn by a
    client-side `Frame`, the optional server-side decoration object of
    xdg-decoration-unstable-v1, and the seats with a pointer the frame listens
    to. The frame, the shell surface and the application's callback are
    collaborators: the frame is an object whose border geometry is given by
    two functions, and the shell surface, the callback and the decoration
    object are append-only logs of what the window sends them. */
module Window {
  import opened Util
  import Compositor

  /** `MIN_WINDOW_SIZE`, the default minimum content size (2 wide, because of
      a mutter bug, 1 high). */
  const MIN_WINDOW_SIZE: Size := Size(2, 1)

  /** The largest `i32`: every content size is cast `as i32` before it meets
      the frame's border arithmetic. */
  const I32_MAX: int := 0x7fff_ffff

  /** Limit on the byte length of a title sent to the compositor. */
  const MAX_TITLE_BYTES: nat := 1024

  /** A width and height in logical pixels. */
  datatype Size = Size(w: int, h: int)

  /** A `(u32, u32)` size whose `as i32` casts keep its value. */
  predicate FitsI32(s: Size)
  {
    0 <= s.w <= I32_MAX && 0 <= s.h <= I32_MAX
  }

  predicate FitsI32Opt(s: Option<Size>)
  {
    s.Some? ==> FitsI32(s.value)
  }

  /** The `xdg_toplevel` states a configure event can carry. */
  datatype State =
    | Maximized | Fullscreen | Resizing | Activated
    | TiledLeft | TiledRight | TiledTop | TiledBottom

  /** The states whose size the compositor dictates, so that the size before
      entering them is worth keeping. */
  predicate Constraining(s: State)
  {
    s.Maximized? || s.Fullscreen? || s.TiledTop? || s.TiledRight? || s.TiledBottom? || s.TiledLeft?
  }

  /** `states.iter().find(..).map(|_| true).unwrap_or(false)`, searched left to right. */
  function ShouldStash(states: seq<State>): (r: bool)
    ensures r <==> exists i :: 0 <= i < |states| && Constraining(states[i])
  {
    if states == [] then false
    else if Constraining(states[0]) then true
    else
      var rest := ShouldStash(states[1..]);
      assert forall i :: 1 <= i < |states| ==> states[i] == states[1..][i - 1];
      rest
  }

  /** `WindowState`, the activation state handed to frames. */
  datatype WindowState = Active | Inactive

  /** `From<bool> for WindowState`. */
  function WindowStateFromBool(b: bool): (s: WindowState)
    ensures s == Active <==> b
  {
    if b then Active else Inactive
  }

  /** `From<WindowState> for bool`. */
  function BoolFromWindowState(s: WindowState): (b: bool)
    ensures b <==> s == Active
  {
    match s
    case Active => true
    case Inactive => false
  }

  lemma WindowStateRoundTrip(b: bool, s: WindowState)
    ensures BoolFromWindowState(WindowStateFromBool(b)) == b
    ensures WindowStateFromBool(BoolFromWindowState(s)) == s
  {
  }

  // ---------------------------------------------------------------------
  // Clamping a suggested size

  /** `Util.Max` and `Util.Min` work on `nat` versions; sizes here are `int`,
      since a size with the borders taken away can be negative. */
  function MaxInt(a: int, b: int): int { if a < b then b else a }

  function MinInt(a: int, b: int): int { if a < b then a else b }

  /** One axis of the clamp as written: at least the minimum, then at most the
      maximum when one is set, then at least 1. A maximum of 0 therefore
      forces the axis to 1. */
  function ClampAxisAsWritten(v: int, lo: int, hi: Option<int>): (r: int)
    ensures r >= 1
    ensures hi.Some? && hi.value >= 1 ==> r <= hi.value
    ensures (hi.None? || lo <= hi.value) ==> r >= lo
  {
    var atLeastMin := MaxInt(v, lo);
    var atMostMax := if hi.Some? then MinInt(atLeastMin, hi.value) else atLeastMin;
    MaxInt(atMostMax, 1)
  }

  /** The clamp as written, on a size the frame has already taken its
      borders from. */
  function ClampAsWritten(content: (int, int), min: Size, max: Option<Size>): (r: Size)
    ensures r.w >= 1 && r.h >= 1
  {
    Size(ClampAxisAsWritten(content.0, min.w, if max.Some? then Some(max.value.w) else None),
         ClampAxisAsWritten(content.1, min.h, if max.Some? then Some(max.value.h) else None))
  }

  /** `set_max_size` documents that a 0 leaves that axis unlimited, yet with a
      maximum width of 0 every suggested width, 800 for one, becomes 1. */
  lemma ZeroMaximumPinsAxis()
    ensures ClampAsWritten((800, 600), MIN_WINDOW_SIZE, Some(Size(0, 700))) == Size(1, 600)
  {
  }

  /** One axis of the clamp as intended: a maximum of 0 means no maximum. */
  function ClampAxis(v: int, lo: int, hi: Option<int>): (r: int)
    ensures r >= 1
    ensures hi.Some? && hi.value >= 1 ==> r <= hi.value
    ensures (hi.None? || hi.value == 0 || lo <= hi.value) ==> r >= lo
    ensures hi.Some? && hi.value == 0 ==> r == MaxInt(MaxInt(v, lo), 1)
    ensures v >= 1 && v >= lo && (hi.None? || hi.value == 0 || v <= hi.value) ==> r == v
  {
    var atLeastMin := MaxInt(v, lo);
    var atMostMax := if hi.Some? && hi.value != 0 then MinInt(atLeastMin, hi.value) else atLeastMin;
    MaxInt(atMostMax, 1)
  }

  function AxisMax(max: Option<Size>, width: bool): Option<int>
  {
    if max.None? then None else if width then Some(max.value.w) else Some(max.value.h)
  }

  /** The size a configure suggests, after the frame's borders are taken
      away, clamped to `[min, max]` and floored at 1 in each dimension. */
  function Clamp(content: (int, int), min: Size, max: Option<Size>): (r: Size)
    ensures r.w >= 1 && r.h >= 1
    ensures max.Some? && max.value.w >= 1 ==> r.w <= max.value.w
    ensures max.Some? && max.value.h >= 1 ==> r.h <= max.value.h
    ensures (max.None? || max.value.w == 0 || min.w <= max.value.w) ==> r.w >= min.w
    ensures (max.None? || max.value.h == 0 || min.h <= max.value.h) ==> r.h >= min.h
  {
    Size(ClampAxis(content.0, min.w, AxisMax(max, true)),
         ClampAxis(content.1, min.h, AxisMax(max, false)))
  }

  /** The intended clamp differs from the one written only where a maximum
      axis is 0. */
  lemma ClampAgreesWithoutZeroMaximum(content: (int, int), min: Size, max: Option<Size>)
    ensures (max.None? || (max.value.w != 0 && max.value.h != 0)) ==>
      Clamp(content, min, max) == ClampAsWritten(content, min, max)
    ensures max.Some? && max.value.w == 0 && content.0 > 1 ==>
      Clamp(content, min, max).w != ClampAsWritten(content, min, max).w
  {
    assert ClampAsWritten(content, min, max).w == ClampAxisAsWritten(content.0, min.w, AxisMax(max, true));
    assert ClampAsWritten(content, min, max).h == ClampAxisAsWritten(content.1, min.h, AxisMax(max, false));
  }

  // ---------------------------------------------------------------------
  // The negotiation state and its transitions

  /** The negotiation fields of `WindowInner`. */
  datatype Inner = Inner(
    minSize: Size,
    maxSize: Option<Size>,
    currentSize: Size,
    oldSize: Option<Size>,
    decorated: bool)

  /** The effect of one `Configure`: the next state and the `new_size` the
      application is told. */
  datatype Configured = Configured(next: Inner, newSize: Option<Size>)

  /** The configure handler's size negotiation. `subtract` is the frame's
      `subtract_borders`. */
  function OnConfigure(n: Inner, subtract: (int, int) -> (int, int), states: seq<State>, suggested: Option<Size>): (r: Configured)
    // a stash is held exactly while the window is in a constraining state
    ensures r.next.oldSize.Some? <==> ShouldStash(states)
    // entering such a state stashes the current size once; staying keeps the first stash
    ensures ShouldStash(states) && n.oldSize.None? ==> r.next.oldSize == Some(n.currentSize)
    ensures ShouldStash(states) && n.oldSize.Some? ==> r.next.oldSize == n.oldSize
    // leaving without a suggested size restores the stash (or suggests nothing)
    ensures !ShouldStash(states) && suggested.None? ==> r.newSize == n.oldSize
    // a suggested size is always answered, within the bounds
    ensures suggested.Some? ==> r.newSize.Some? && r.newSize.value.w >= 1 && r.newSize.value.h >= 1
    ensures suggested.Some? ==> r.newSize == Some(ClampAsWritten(subtract(suggested.value.w, suggested.value.h), n.minSize, n.maxSize))
    ensures ShouldStash(states) && suggested.None? ==> r.newSize == None
    // a configure changes nothing but the stash
    ensures r.next.minSize == n.minSize && r.next.maxSize == n.maxSize
    ensures r.next.currentSize == n.currentSize && r.next.decorated == n.decorated
  {
    var newSize := if suggested.Some? then
      Some(ClampAsWritten(subtract(suggested.value.w, suggested.value.h), n.minSize, n.maxSize))
    else None;
    if ShouldStash(states) then
      var stash := if n.oldSize.None? then Some(n.currentSize) else n.oldSize;
      Configured(n.(oldSize := stash), newSize)
    else if newSize.None? then
      Configured(n.(oldSize := None), n.oldSize)
    else
      Configured(n.(oldSize := None), newSize)
  }

  /** `Window::resize`: the content size, each dimension at least 1. */
  function OnResize(n: Inner, w: int, h: int): (r: Inner)
    ensures r.currentSize.w >= 1 && r.currentSize.h >= 1
    ensures w >= 1 ==> r.currentSize.w == w
    ensures h >= 1 ==> r.currentSize.h == h
    ensures w < 1 ==> r.currentSize.w == 1
    ensures h < 1 ==> r.currentSize.h == 1
    ensures r.minSize == n.minSize && r.maxSize == n.maxSize
    ensures r.oldSize == n.oldSize && r.decorated == n.decorated
  {
    n.(currentSize := Size(MaxInt(w, 1), MaxInt(h, 1)))
  }

  /** What reaches the window, one input at a time: configures from the
      compositor and resizes from the application. */
  datatype Input =
    | ConfigureInput(states: seq<State>, suggested: Option<Size>)
    | ResizeInput(w: int, h: int)

  function Step(n: Inner, subtract: (int, int) -> (int, int), input: Input): Inner
  {
    match input
    case ConfigureInput(states, suggested) => OnConfigure(n, subtract, states, suggested).next
    case ResizeInput(w, h) => OnResize(n, w, h)
  }

  /** The state after a burst of inputs, applied in order. */
  function Run(n: Inner, subtract: (int, int) -> (int, int), inputs: seq<Input>): Inner
    decreases |inputs|
  {
    if inputs == [] then n else Run(Step(n, subtract, inputs[0]), subtract, inputs[1..])
  }

  /** Every configure in `inputs` carries a constraining state. */
  predicate AllConstrained(inputs: seq<Input>)
  {
    forall i :: 0 <= i < |inputs| && inputs[i].ConfigureInput? ==> ShouldStash(inputs[i].states)
  }

  /** While the window stays maximized, fullscreen or tiled, neither further
      configures nor resizes by the application replace the stash. */
  lemma {:induction false} ConstrainedRunKeepsStash(n: Inner, subtract: (int, int) -> (int, int), inputs: seq<Input>)
    requires n.oldSize.Some?
    requires AllConstrained(inputs)
    ensures Run(n, subtract, inputs).oldSize == n.oldSize
    decreases |inputs|
  {
    if inputs != [] {
      assert AllConstrained(inputs[1..]) by {
        forall i | 0 <= i < |inputs[1..]| && inputs[1..][i].ConfigureInput?
          ensures ShouldStash(inputs[1..][i].states)
        {
          assert inputs[1..][i] == inputs[i + 1];
        }
      }
      ConstrainedRunKeepsStash(Step(n, subtract, inputs[0]), subtract, inputs[1..]);
    }
  }

  /** Entering a constraining state, staying in it for any burst of configures
      and resizes, then leaving it with no suggested size tells the
      application exactly the size it had before it first entered. */
  lemma {:induction false} RestoreAfterConstrainedRun(
    n: Inner, subtract: (int, int) -> (int, int), inputs: seq<Input>, leave: seq<State>)
    requires n.oldSize.None?
    requires |inputs| >= 1 && inputs[0].ConfigureInput?
    requires AllConstrained(inputs)
    requires !ShouldStash(leave)
    ensures OnConfigure(Run(n, subtract, inputs), subtract, leave, None).newSize == Some(n.currentSize)
    ensures OnConfigure(Run(n, subtract, inputs), subtract, leave, None).next.oldSize == None
  {
    var first := Step(n, subtract, inputs[0]);
    assert first.oldSize == Some(n.currentSize);
    assert AllConstrained(inputs[1..]) by {
      forall i | 0 <= i < |inputs[1..]| && inputs[1..][i].ConfigureInput?
        ensures ShouldStash(inputs[1..][i].states)
      {
        assert inputs[1..][i] == inputs[i + 1];
      }
    }
    ConstrainedRunKeepsStash(first, subtract, inputs[1..]);
  }

  /** A window of 800x600 without borders is maximized to 1920x1080 and later
      released with no suggested size: it is told 1920x1080, then its old
      800x600 again. */
  lemma MaximizeThenRestore()
    ensures var n := Inner(MIN_WINDOW_SIZE, None, Size(800, 600), None, true);
      var noBorders := (w: int, h: int) => (w, h);
      var first := OnConfigure(n, noBorders, [Maximized], Some(Size(1920, 1080)));
      var second := OnConfigure(first.next, noBorders, [], None);
      first.newSize == Some(Size(1920, 1080)) && first.next.oldSize == Some(Size(800, 600)) &&
      second.newSize == Some(Size(800, 600)) && second.next.oldSize == None
  {
    var n := Inner(MIN_WINDOW_SIZE, None, Size(800, 600), None, true);
    var noBorders := (w: int, h: int) => (w, h);
    assert ShouldStash([Maximized]);
    assert !ShouldStash([]);
    var first := OnConfigure(n, noBorders, [Maximized], Some(Size(1920, 1080)));
    assert first.newSize == Some(ClampAsWritten((1920, 1080), MIN_WINDOW_SIZE, None));
  }

  /** When the bounds are consistent, every size a configure suggests to the
      application lies within them. */
  lemma ConfiguredSizeWithinBounds(n: Inner, subtract: (int, int) -> (int, int), states: seq<State>, suggested: Size)
    requires n.maxSize.Some? && n.minSize.w <= n.maxSize.value.w && n.minSize.h <= n.maxSize.value.h
    requires n.maxSize.value.w >= 1 && n.maxSize.value.h >= 1
    ensures var s := OnConfigure(n, subtract, states, Some(suggested)).newSize.value;
      n.minSize.w <= s.w <= n.maxSize.value.w && n.minSize.h <= s.h <= n.maxSize.value.h
  {
  }

  // ---------------------------------------------------------------------
  // Decorations

  /** What the application asks for with `set_decorate`; `NoDecorations` is
      the source's `Decorations::None`. */
  datatype Decorations = ServerSide | ClientSide | FollowServer | NoDecorations

  /** The modes of a `zxdg_toplevel_decoration_v1`. */
  datatype Mode = ClientSideMode | ServerSideMode

  /** What the window sends its decoration object. */
  datatype DecorationRequest = SetMode(mode: Mode) | UnsetMode | Destroy

  /** What `set_decorate` does besides recording `decorated`: the frame's new
      `hidden` flag, if it is set, and the request for the decoration object,
      if one is sent. */
  datatype DecorateEffect = DecorateEffect(hidden: Option<bool>, request: Option<DecorationRequest>)

  /** The decision table of `set_decorate`. */
  function Decorate(hasObject: bool, d: Decorations): (r: DecorateEffect)
    // with no decoration object the frame is the only decoration: shown unless none is wanted
    ensures !hasObject ==> r.hidden == Some(d == NoDecorations) && r.request.None?
    // with one, asking for client side destroys it and shows the frame
    ensures hasObject && d == ClientSide ==> r.hidden == Some(false) && r.request == Some(Destroy)
    // asking for none keeps the object, asks for client side and hides the frame
    ensures hasObject && d == NoDecorations ==> r.hidden == Some(true) && r.request == Some(SetMode(ClientSideMode))
    // the other two leave the frame to the compositor's answer
    ensures hasObject && d == ServerSide ==> r.hidden.None? && r.request == Some(SetMode(ServerSideMode))
    ensures hasObject && d == FollowServer ==> r.hidden.None? && r.request == Some(UnsetMode)
  {
    if hasObject then
      match d
      case ClientSide => DecorateEffect(Some(false), Some(Destroy))
      case ServerSide => DecorateEffect(None, Some(SetMode(ServerSideMode)))
      case FollowServer => DecorateEffect(None, Some(UnsetMode))
      case NoDecorations => DecorateEffect(Some(true), Some(SetMode(ClientSideMode)))
    else
      match d
      case NoDecorations => DecorateEffect(Some(true), None)
      case _ => DecorateEffect(Some(false), None)
  }

  /** The frame's `hidden` flag after the compositor announces a mode:
      server side hides it, client side shows it exactly when decorations are
      wanted (not wanted if the window is being torn down). */
  function HiddenForMode(mode: Mode, live: bool, decorated: bool): (hidden: bool)
    ensures mode == ServerSideMode ==> hidden
    ensures mode == ClientSideMode ==> (hidden <==> !(live && decorated))
  {
    match mode
    case ServerSideMode => true
    case ClientSideMode => !(if live then decorated else false)
  }

  // ---------------------------------------------------------------------
  // Titles

  /** A byte of a UTF-8 string. */
  newtype byte = x: int | 0 <= x < 256

  /** `str::is_char_boundary`: the ends of the string, or an index whose byte
      is not a UTF-8 continuation byte (`0b10xx_xxxx`). Past the end: false. */
  predicate IsCharBoundary(s: seq<byte>, i: nat)
  {
    i == 0 || i == |s| || (i < |s| && !(0x80 <= s[i] < 0xC0))
  }

  /** The largest character boundary of `s` not above `n`. */
  function LastBoundary(s: seq<byte>, n: nat): (k: nat)
    ensures k <= n && IsCharBoundary(s, k)
    ensures forall j :: k < j <= n ==> !IsCharBoundary(s, j)
  {
    if IsCharBoundary(s, n) then n else LastBoundary(s, n - 1)
  }

  /** The title `set_title` forwards. */
  function TruncatedTitle(title: seq<byte>): seq<byte>
  {
    if |title| > MAX_TITLE_BYTES then title[..LastBoundary(title, MAX_TITLE_BYTES)] else title
  }

  /** The truncation loop of `set_title`: a title over 1024 bytes is cut at the
      last character boundary at or before byte 1024. */
  method TruncateTitle(title: seq<byte>) returns (r: seq<byte>)
    ensures r == TruncatedTitle(title)
    ensures |r| <= MAX_TITLE_BYTES && r <= title
    ensures IsCharBoundary(title, |r|)
    ensures |title| <= MAX_TITLE_BYTES ==> r == title
    ensures |title| > MAX_TITLE_BYTES ==> forall j :: |r| < j <= MAX_TITLE_BYTES ==> !IsCharBoundary(title, j)
  {
    r := title;
    if |title| > MAX_TITLE_BYTES {
      var newLen: nat := MAX_TITLE_BYTES;
      while !IsCharBoundary(title, newLen)
        invariant newLen <= MAX_TITLE_BYTES
        invariant forall j :: newLen < j <= MAX_TITLE_BYTES ==> !IsCharBoundary(title, j)
        decreases newLen
      {
        newLen := newLen - 1;
      }
      assert newLen == LastBoundary(title, MAX_TITLE_BYTES);
      r := title[..newLen];
    }
  }

  // ---------------------------------------------------------------------
  // Seats

  /** Identity of a `wl_seat`. */
  type SeatId = nat

  /** A seat as the seat listener reports it. */
  datatype SeatInfo = SeatInfo(seat: SeatId, hasPointer: bool, defunct: bool)

  /** A seat is worth tracking when it has a pointer and is not defunct. */
  predicate Qualifies(i: SeatInfo)
  {
    i.hasPointer && !i.defunct
  }

  /** What the frame is told about a seat. */
  datatype SeatCall = Added(seat: SeatId) | Removed(seat: SeatId)

  /** One seat-listener notification: a new qualifying seat is added and
      announced; a known seat that no longer qualifies is removed (every
      occurrence) and announced; anything else changes nothing. */
  function TrackSeat(seats: seq<SeatId>, info: SeatInfo): (r: (seq<SeatId>, seq<SeatCall>))
    ensures info.seat in r.0 <==> Qualifies(info)
    ensures forall s :: s != info.seat ==> (s in r.0 <==> s in seats)
    ensures NoDuplicates(seats) ==> NoDuplicates(r.0)
    ensures r.1 == (if info.seat !in seats && Qualifies(info) then [Added(info.seat)]
                    else if info.seat in seats && !Qualifies(info) then [Removed(info.seat)]
                    else [])
  {
    var known := info.seat in seats;
    if !known && Qualifies(info) then
      (seats + [info.seat], [Added(info.seat)])
    else if known && !Qualifies(info) then
      (RemoveAll(seats, info.seat), [Removed(info.seat)])
    else
      (seats, [])
  }

  /** The seats announced at creation: the qualifying ones, in order. */
  function InitialSeats(all: seq<SeatInfo>): (r: seq<SeatId>)
    ensures |r| <= |all|
  {
    if all == [] then []
    else
      var front := InitialSeats(all[..|all| - 1]);
      if Qualifies(all[|all| - 1]) then front + [all[|all| - 1].seat] else front
  }

  /** A seat is tracked at creation exactly when some listed entry for it qualifies. */
  lemma {:induction false} InitialSeatsMembers(all: seq<SeatInfo>, s: SeatId)
    ensures s in InitialSeats(all) <==> exists i :: 0 <= i < |all| && all[i].seat == s && Qualifies(all[i])
  {
    if all != [] {
      var front := all[..|all| - 1];
      InitialSeatsMembers(front, s);
      assert forall i :: 0 <= i < |front| ==> front[i] == all[i];
    }
  }

  /** The frame calls announcing `seats`, in order. */
  function AddedCalls(seats: seq<SeatId>): (calls: seq<SeatCall>)
    ensures |calls| == |seats|
    ensures forall i :: 0 <= i < |seats| ==> calls[i] == Added(seats[i])
  {
    seq(|seats|, i requires 0 <= i < |seats| => Added(seats[i]))
  }

  /** One more listed seat extends the tracked list by at most that seat. */
  lemma InitialSeatsStep(all: seq<SeatInfo>, i: nat)
    requires i < |all|
    ensures InitialSeats(all[..i + 1]) ==
      if Qualifies(all[i]) then InitialSeats(all[..i]) + [all[i].seat] else InitialSeats(all[..i])
  {
    assert all[..i + 1][..i] == all[..i];
  }

  /** Announcing one more seat appends one call. */
  lemma AddedCallsStep(seats: seq<SeatId>, s: SeatId)
    ensures AddedCalls(seats + [s]) == AddedCalls(seats) + [Added(s)]
  {
  }

  /** Distinct seats give a tracked set without duplicates. */
  lemma {:induction false} InitialSeatsNoDuplicates(all: seq<SeatInfo>)
    requires forall i, j :: 0 <= i < j < |all| ==> all[i].seat != all[j].seat
    ensures NoDuplicates(InitialSeats(all))
  {
    if all != [] {
      var front := all[..|all| - 1];
      InitialSeatsNoDuplicates(front);
      var last := all[|all| - 1];
      var r := InitialSeats(front);
      assert last.seat !in r by {
        InitialSeatsMembers(front, last.seat);
        assert forall i :: 0 <= i < |front| ==> front[i] == all[i];
      }
      assert forall k :: 0 <= k < |r| ==> r[k] in r;
    }
  }

  /** A seat that gains its pointer, loses it and gains it again ends up
      tracked, announced to the frame twice and withdrawn once. */
  lemma {:induction false} SeatFlapping(seats: seq<SeatId>, s: SeatId)
    requires s !in seats
    ensures var a := TrackSeat(seats, SeatInfo(s, true, false));
      var b := TrackSeat(a.0, SeatInfo(s, false, false));
      var c := TrackSeat(b.0, SeatInfo(s, true, false));
      s in c.0 && a.1 + b.1 + c.1 == [Added(s), Removed(s), Added(s)]
  {
    var a := TrackSeat(seats, SeatInfo(s, true, false));
    assert s in a.0;
    var b := TrackSeat(a.0, SeatInfo(s, false, false));
    assert s !in b.0;
  }

  // ---------------------------------------------------------------------
  // Requests and events

  /** The edge or corner an interactive resize drags (`ResizeEdge`, as its wire value). */
  type ResizeEdge = nat

  /** What the window sends its shell surface; sizes here include the borders. */
  datatype ShellRequest =
    | SetMinSize(minSize: Option<(int, int)>)
    | SetMaxSize(maxSize: Option<(int, int)>)
    | SetGeometry(x: int, y: int, width: int, height: int)
    | SetTitle(title: seq<byte>)
    | SetAppId(appId: string)
    | SetMaximized
    | UnsetMaximized
    | SetMinimized
    | SetFullscreen(output: Option<Compositor.OutputId>)
    | UnsetFullscreen
    | InteractiveMove(seat: SeatId, serial: nat)
    | InteractiveResize(seat: SeatId, serial: nat, edge: ResizeEdge)
    | ShowWindowMenu(seat: SeatId, serial: nat, x: int, y: int)

  /** What the application's callback receives. */
  datatype Event =
    | Configure(newSize: Option<Size>, states: seq<State>)
    | Close
    | Refresh

  /** What a frame asks of the window when the user acts on the decorations. */
  datatype FrameRequest =
    | Minimize
    | Maximize
    | UnMaximize
    | Close
    | Move(seat: SeatId)
    | Resize(seat: SeatId, edge: ResizeEdge)
    | ShowMenu(seat: SeatId, x: int, y: int)
    | Refresh

  /** Where a frame request goes: a request to the shell surface or an event
      for the application. */
  datatype Forwarded = ToShell(request: ShellRequest) | ToUser(event: Event)

  /** The forwarding table of the frame callback; `serial` is that of the
      input event that triggered the request. */
  function Forward(req: FrameRequest, serial: nat): (r: Forwarded)
    ensures r.ToUser? <==> req.Close? || req.Refresh?
    ensures req.Close? ==> r == ToUser(Event.Close)
    ensures req.Refresh? ==> r == ToUser(Event.Refresh)
    ensures req.Minimize? ==> r == ToShell(SetMinimized)
    ensures req.Maximize? ==> r == ToShell(SetMaximized)
    ensures req.UnMaximize? ==> r == ToShell(UnsetMaximized)
    ensures req.Move? ==> r == ToShell(InteractiveMove(req.seat, serial))
    ensures req.Resize? ==> r == ToShell(InteractiveResize(req.seat, serial, req.edge))
    ensures req.ShowMenu? ==> r == ToShell(ShowWindowMenu(req.seat, serial, req.x, req.y))
  {
    match req
    case Minimize => ToShell(SetMinimized)
    case Maximize => ToShell(SetMaximized)
    case UnMaximize => ToShell(UnsetMaximized)
    case Move(seat) => ToShell(InteractiveMove(seat, serial))
    case Resize(seat, edge) => ToShell(InteractiveResize(seat, serial, edge))
    case ShowMenu(seat, x, y) => ToShell(ShowWindowMenu(seat, serial, x, y))
    case Close => ToUser(Event.Close)
    case Refresh => ToUser(Event.Refresh)
  }

  /** The frame request a forwarded request or event came from, if any. */
  function Origin(f: Forwarded): Option<FrameRequest>
  {
    match f
    case ToShell(SetMinimized) => Some(Minimize)
    case ToShell(SetMaximized) => Some(Maximize)
    case ToShell(UnsetMaximized) => Some(UnMaximize)
    case ToShell(InteractiveMove(seat, _)) => Some(Move(seat))
    case ToShell(InteractiveResize(seat, _, edge)) => Some(FrameRequest.Resize(seat, edge))
    case ToShell(ShowWindowMenu(seat, _, x, y)) => Some(ShowMenu(seat, x, y))
    case ToUser(Close) => Some(FrameRequest.Close)
    case ToUser(Refresh) => Some(FrameRequest.Refresh)
    case _ => None
  }

  /** Forwarding loses nothing: the frame request can be read back from what
      was forwarded, so distinct requests are forwarded differently. */
  lemma ForwardLossless(req: FrameRequest, serial: nat)
    ensures Origin(Forward(req, serial)) == Some(req)
  {
  }

  /** The events one configure produces: `Refresh` first when the frame asked
      for it, then the single `Configure`. */
  function ConfigureEvents(needRefresh: bool, newSize: Option<Size>, states: seq<State>): (es: seq<Event>)
    ensures |es| >= 1 && es[|es| - 1] == Configure(newSize, states)
    ensures Event.Refresh in es <==> needRefresh
    ensures forall i :: 0 <= i < |es| - 1 ==> es[i] == Event.Refresh
    ensures |es| <= 2
  {
    (if needRefresh then [Event.Refresh] else []) + [Configure(newSize, states)]
  }

  // ---------------------------------------------------------------------
  // The frame

  /** Everything about a frame that the window's calls can change. */
  datatype FrameView = FrameView(
    hidden: bool,
    resizable: bool,
    states: seq<State>,
    size: Size,
    title: seq<byte>,
    seatCalls: seq<SeatCall>,
    redraws: nat)

  /** A client-side decoration renderer, seen through the calls the window
      makes on it. Its border geometry is fixed when it is created. */
  class Frame {
    /** `add_borders`: the size including the decorations. */
    const addBorders: (int, int) -> (int, int)
    /** `subtract_borders`: the content size left inside a total size. */
    const subtractBorders: (int, int) -> (int, int)
    /** `location`: the top-left corner of the borders, relative to the content. */
    const location: (int, int)

    var hidden: bool
    var resizable: bool
    var states: seq<State>
    var size: Size
    var title: seq<byte>
    var seatCalls: seq<SeatCall>
    var redraws: nat

    function View(): FrameView
      reads this
    {
      FrameView(hidden, resizable, states, size, title, seatCalls, redraws)
    }

    constructor (addBorders: (int, int) -> (int, int), subtractBorders: (int, int) -> (int, int),
                 location: (int, int), hidden: bool)
      ensures this.addBorders == addBorders && this.subtractBorders == subtractBorders
      ensures this.location == location && this.hidden == hidden
      ensures seatCalls == [] && redraws == 0
    {
      this.addBorders := addBorders;
      this.subtractBorders := subtractBorders;
      this.location := location;
      this.hidden := hidden;
      resizable := true;
      states := [];
      size := Size(0, 0);
      title := [];
      seatCalls := [];
      redraws := 0;
    }

    method SetStates(states: seq<State>)
      modifies this
      ensures this.states == states
      ensures hidden == old(hidden) && seatCalls == old(seatCalls) && size == old(size)
      ensures title == old(title) && resizable == old(resizable) && redraws == old(redraws)
    {
      this.states := states;
    }

    method SetHidden(hidden: bool)
      modifies this
      ensures this.hidden == hidden
      ensures states == old(states) && seatCalls == old(seatCalls) && size == old(size)
      ensures title == old(title) && resizable == old(resizable) && redraws == old(redraws)
    {
      this.hidden := hidden;
    }

    method SetResizable(resizable: bool)
      modifies this
      ensures this.resizable == resizable
      ensures hidden == old(hidden) && states == old(states) && seatCalls == old(seatCalls)
      ensures size == old(size) && title == old(title) && redraws == old(redraws)
    {
      this.resizable := resizable;
    }

    method Resize(size: Size)
      modifies this
      ensures this.size == size
      ensures hidden == old(hidden) && states == old(states) && seatCalls == old(seatCalls)
      ensures title == old(title) && resizable == old(resizable) && redraws == old(redraws)
    {
      this.size := size;
    }

    method SetTitle(title: seq<byte>)
      modifies this
      ensures this.title == title
      ensures hidden == old(hidden) && states == old(states) && seatCalls == old(seatCalls)
      ensures size == old(size) && resizable == old(resizable) && redraws == old(redraws)
    {
      this.title := title;
    }

    method Redraw()
      modifies this
      ensures redraws == old(redraws) + 1
      ensures hidden == old(hidden) && states == old(states) && seatCalls == old(seatCalls)
      ensures size == old(size) && title == old(title) && resizable == old(resizable)
    {
      redraws := redraws + 1;
    }

    /** `new_seat` and `remove_seat`, recorded in order. */
    method SeatCalls(calls: seq<SeatCall>)
      modifies this
      ensures seatCalls == old(seatCalls) + calls
      ensures hidden == old(hidden) && states == old(states) && size == old(size)
      ensures title == old(title) && resizable == old(resizable) && redraws == old(redraws)
    {
      seatCalls := seatCalls + calls;
    }
  }

  // ---------------------------------------------------------------------
  // The window

  /** `Window` together with its `WindowInner`. `live` says whether the inner
      state is present: it is dropped when the window is, after which the
      callbacks do nothing. */
  class Window {
    const frame: Frame

    var live: bool
    var minSize: Size
    var maxSize: Option<Size>
    var currentSize: Size
    var oldSize: Option<Size>
    var decorated: bool

    /** Whether the `zxdg_toplevel_decoration_v1` object exists. */
    var decoration: bool
    /** The seats with a pointer the frame was told about. */
    var seats: seq<SeatId>

    /** Requests sent to the shell surface, events given to the application,
        requests sent to the decoration object. */
    var requests: seq<ShellRequest>
    var events: seq<Event>
    var decorationRequests: seq<DecorationRequest>

    /** Whether the last configure carried a constraining state. */
    ghost var constrained: bool

    ghost predicate Valid()
      reads this
    {
      FitsI32(minSize) && FitsI32Opt(maxSize) && FitsI32(currentSize) && FitsI32Opt(oldSize) &&
      NoDuplicates(seats) &&
      (oldSize.Some? <==> constrained)
    }

    /** The negotiation fields as a value. */
    function InnerState(): Inner
      reads this
    {
      Inner(minSize, maxSize, currentSize, oldSize, decorated)
    }

    /** `init_with_decorations`, once the frame has initialised: with no
        decoration manager the frame is shown; the frame takes the initial
        size; the shell surface receives the default minimum and the
        geometry, both including the borders; every seat with a pointer is
        announced; the decoration object exists when there is a manager and
        the shell is xdg-shell. */
    constructor (frame: Frame, initialDims: Size, hasManager: bool, isXdg: bool, allSeats: seq<SeatInfo>)
      requires FitsI32(initialDims)
      requires forall i, j :: 0 <= i < j < |allSeats| ==> allSeats[i].seat != allSeats[j].seat
      modifies frame
      ensures Valid()
      ensures this.frame == frame && live
      ensures InnerState() == Inner(MIN_WINDOW_SIZE, None, initialDims, None, true)
      ensures frame.View() == old(frame.View()).(
        hidden := if hasManager then old(frame.hidden) else false,
        size := initialDims,
        seatCalls := old(frame.seatCalls) + AddedCalls(seats))
      ensures requests == [ShellRequest.SetMinSize(Some(frame.addBorders(MIN_WINDOW_SIZE.w, MIN_WINDOW_SIZE.h))),
                           SetGeometry(frame.location.0, frame.location.1,
                                       frame.addBorders(initialDims.w, initialDims.h).0,
                                       frame.addBorders(initialDims.w, initialDims.h).1)]
      ensures seats == InitialSeats(allSeats)
      ensures events == [] && decorationRequests == []
      ensures decoration == (hasManager && isXdg)
    {
      this.frame := frame;
      if !hasManager {
        frame.SetHidden(false);
      }
      frame.Resize(initialDims);
      var minBorders := frame.addBorders(MIN_WINDOW_SIZE.w, MIN_WINDOW_SIZE.h);
      var total := frame.addBorders(initialDims.w, initialDims.h);
      requests := [ShellRequest.SetMinSize(Some(minBorders)), SetGeometry(frame.location.0, frame.location.1, total.0, total.1)];

      var tracked := AnnounceSeats(frame, allSeats);
      InitialSeatsNoDuplicates(allSeats);
      seats := tracked;

      live := true;
      minSize := MIN_WINDOW_SIZE;
      maxSize := None;
      currentSize := initialDims;
      oldSize := None;
      decorated := true;
      constrained := false;
      decoration := hasManager && isXdg;
      events := [];
      decorationRequests := [];
    }

    /** The shell surface's `Configure` event: the frame takes the states,
        the size is negotiated, and the application receives `Refresh` when
        the frame's `set_states` answered `needRefresh`, then `Configure`.
        Nothing happens once the inner state is gone. */
    method OnShellConfigure(states: seq<State>, suggested: Option<Size>, needRefresh: bool)
      requires Valid()
      requires FitsI32Opt(suggested)
      modifies this, frame
      ensures Valid()
      ensures !old(live) ==> events == old(events) && InnerState() == old(InnerState()) && frame.View() == old(frame.View())
      ensures old(live) ==> frame.View() == old(frame.View()).(states := states)
      ensures old(live) ==> InnerState() == OnConfigure(old(InnerState()), frame.subtractBorders, states, suggested).next
      ensures old(live) ==> events == old(events) + ConfigureEvents(needRefresh,
                              OnConfigure(old(InnerState()), frame.subtractBorders, states, suggested).newSize, states)
      ensures live == old(live) && requests == old(requests) && seats == old(seats)
      ensures decoration == old(decoration) && decorationRequests == old(decorationRequests)
    {
      if !live {
        return;
      }
      frame.SetStates(states);
      ghost var c := OnConfigure(InnerState(), frame.subtractBorders, states, suggested);
      var newSize: Option<Size> := None;
      if suggested.Some? {
        newSize := Some(ClampAsWritten(frame.subtractBorders(suggested.value.w, suggested.value.h), minSize, maxSize));
      }
      var stash := ShouldStash(states);
      if stash {
        if oldSize.None? {
          oldSize := Some(currentSize);
        }
      } else if newSize.None? {
        newSize := oldSize;
        oldSize := None;
      } else {
        oldSize := None;
      }
      constrained := stash;
      assert newSize == c.newSize && InnerState() == c.next;
      events := events + ConfigureEvents(needRefresh, newSize, states);
    }

    /** The shell surface's `Close` event: one `Close` for the application. */
    method OnShellClose()
      modifies this
      ensures events == old(events) + (if old(live) then [Event.Close] else [])
      ensures live == old(live) && InnerState() == old(InnerState()) && requests == old(requests)
      ensures seats == old(seats) && decoration == old(decoration)
      ensures decorationRequests == old(decorationRequests) && constrained == old(constrained)
    {
      if live {
        events := events + [Event.Close];
      }
    }

    /** The frame callback: forwards a frame request to the shell surface or
        to the application, or drops it when the inner state is gone. */
    method OnFrameRequest(req: FrameRequest, serial: nat)
      modifies this
      ensures !old(live) ==> requests == old(requests) && events == old(events)
      ensures old(live) && Forward(req, serial).ToShell? ==>
        requests == old(requests) + [Forward(req, serial).request] && events == old(events)
      ensures old(live) && Forward(req, serial).ToUser? ==>
        events == old(events) + [Forward(req, serial).event] && requests == old(requests)
      ensures live == old(live) && InnerState() == old(InnerState()) && seats == old(seats)
      ensures decoration == old(decoration) && decorationRequests == old(decorationRequests)
      ensures constrained == old(constrained)
    {
      if live {
        match Forward(req, serial)
        case ToShell(r) => requests := requests + [r];
        case ToUser(e) => events := events + [e];
      }
    }

    /** The decoration object's `configure` event with the compositor's mode. */
    method OnDecorationMode(mode: Mode)
      requires decoration
      modifies frame
      ensures frame.View() == old(frame.View()).(hidden := HiddenForMode(mode, live, decorated))
    {
      frame.SetHidden(HiddenForMode(mode, live, decorated));
    }

    /** The seat listener: tracks a seat whose capabilities changed. The
        listener is owned by the window, so once the window is dropped no
        notification reaches it. */
    method OnSeatChange(info: SeatInfo)
      requires Valid()
      modifies this, frame
      ensures Valid()
      ensures old(live) ==> seats == TrackSeat(old(seats), info).0
      ensures old(live) ==> frame.View() == old(frame.View()).(seatCalls := old(frame.seatCalls) + TrackSeat(old(seats), info).1)
      ensures !old(live) ==> seats == old(seats) && frame.View() == old(frame.View())
      ensures live == old(live) && InnerState() == old(InnerState()) && requests == old(requests)
      ensures events == old(events) && decoration == old(decoration)
      ensures decorationRequests == old(decorationRequests)
    {
      if !live {
        return;
      }
      var known := info.seat in seats;
      if !known && Qualifies(info) {
        frame.SeatCalls([Added(info.seat)]);
        seats := seats + [info.seat];
      } else if known && !Qualifies(info) {
        frame.SeatCalls([Removed(info.seat)]);
        seats := RemoveAll(seats, info.seat);
      }
      assert seats == TrackSeat(old(seats), info).0;
    }

    /** `refresh`: redraws the frame, nothing else. */
    method Refresh()
      modifies frame
      ensures frame.View() == old(frame.View()).(redraws := old(frame.redraws) + 1)
    {
      frame.Redraw();
    }

    /** `set_title`: the truncated title goes to the frame and to the shell surface. */
    method SetTitle(title: seq<byte>)
      modifies this, frame
      ensures frame.View() == old(frame.View()).(title := TruncatedTitle(title))
      ensures requests == old(requests) + [ShellRequest.SetTitle(TruncatedTitle(title))]
      ensures |frame.title| <= MAX_TITLE_BYTES && frame.title <= title
      ensures live == old(live) && InnerState() == old(InnerState()) && events == old(events)
      ensures seats == old(seats) && decoration == old(decoration)
      ensures decorationRequests == old(decorationRequests) && constrained == old(constrained)
    {
      var t := TruncateTitle(title);
      frame.SetTitle(t);
      requests := requests + [ShellRequest.SetTitle(t)];
    }

    /** `set_app_id`: forwarded as it is. */
    method SetAppId(appId: string)
      modifies this
      ensures requests == old(requests) + [ShellRequest.SetAppId(appId)]
      ensures live == old(live) && InnerState() == old(InnerState()) && events == old(events)
      ensures seats == old(seats) && decoration == old(decoration)
      ensures decorationRequests == old(decorationRequests) && constrained == old(constrained)
    {
      requests := requests + [ShellRequest.SetAppId(appId)];
    }

    /** `set_decorate`: records whether decorations are wanted, then applies
        the decision table. */
    method SetDecorate(d: Decorations)
      requires Valid()
      modifies this, frame
      ensures Valid()
      ensures old(live) ==> (decorated <==> d != NoDecorations)
      ensures !old(live) ==> decorated == old(decorated)
      ensures var e := Decorate(old(decoration), d);
        frame.View() == old(frame.View()).(hidden := if e.hidden.Some? then e.hidden.value else old(frame.hidden)) &&
        decorationRequests == old(decorationRequests) + (if e.request.Some? then [e.request.value] else [])
      ensures decoration == (old(decoration) && d != ClientSide)
      ensures live && !decoration ==> frame.hidden == !decorated
      ensures live == old(live) && minSize == old(minSize) && maxSize == old(maxSize)
      ensures currentSize == old(currentSize) && oldSize == old(oldSize)
      ensures requests == old(requests) && events == old(events) && seats == old(seats)
    {
      if live {
        decorated := d != NoDecorations;
      }
      var e := Decorate(decoration, d);
      if e.request.Some? {
        decorationRequests := decorationRequests + [e.request.value];
      }
      if decoration && d == ClientSide {
        decoration := false;
      }
      if e.hidden.Some? {
        frame.SetHidden(e.hidden.value);
      }
    }

    /** `set_resizable`: the frame is told; re-enabling sends the recorded
        bounds again, disabling pins both bounds to the current size (all
        including the borders). */
    method SetResizable(resizable: bool)
      modifies this, frame
      ensures frame.View() == old(frame.View()).(resizable := resizable)
      ensures !old(live) ==> requests == old(requests)
      ensures old(live) && resizable ==> requests == old(requests) + [
        ShellRequest.SetMinSize(Some(frame.addBorders(minSize.w, minSize.h))),
        ShellRequest.SetMaxSize(if maxSize.Some? then Some(frame.addBorders(maxSize.value.w, maxSize.value.h)) else None)]
      ensures old(live) && !resizable ==> requests == old(requests) + [
        ShellRequest.SetMinSize(Some(frame.addBorders(currentSize.w, currentSize.h))),
        ShellRequest.SetMaxSize(Some(frame.addBorders(currentSize.w, currentSize.h)))]
      ensures live == old(live) && InnerState() == old(InnerState()) && events == old(events)
      ensures seats == old(seats) && decoration == old(decoration)
      ensures decorationRequests == old(decorationRequests) && constrained == old(constrained)
    {
      frame.SetResizable(resizable);
      if live {
        if resizable {
          var maxRequest := if maxSize.Some? then Some(frame.addBorders(maxSize.value.w, maxSize.value.h)) else None;
          requests := requests + [ShellRequest.SetMinSize(Some(frame.addBorders(minSize.w, minSize.h))), ShellRequest.SetMaxSize(maxRequest)];
        } else {
          var locked := frame.addBorders(currentSize.w, currentSize.h);
          requests := requests + [ShellRequest.SetMinSize(Some(locked)), ShellRequest.SetMaxSize(Some(locked))];
        }
      }
    }

    /** `resize`: each dimension floored at 1 becomes the current size and the
        frame's size, and one geometry request carries the size including the
        borders. */
    method Resize(w: int, h: int)
      requires Valid()
      requires FitsI32(Size(w, h))
      modifies this, frame
      ensures Valid()
      ensures old(live) ==> InnerState() == OnResize(old(InnerState()), w, h)
      ensures !old(live) ==> InnerState() == old(InnerState())
      ensures frame.View() == old(frame.View()).(size := Size(MaxInt(w, 1), MaxInt(h, 1)))
      ensures requests == old(requests) + [SetGeometry(frame.location.0, frame.location.1,
        frame.addBorders(MaxInt(w, 1), MaxInt(h, 1)).0, frame.addBorders(MaxInt(w, 1), MaxInt(h, 1)).1)]
      ensures live == old(live) && events == old(events) && seats == old(seats)
      ensures decoration == old(decoration) && decorationRequests == old(decorationRequests)
    {
      var size := Size(MaxInt(w, 1), MaxInt(h, 1));
      if live {
        currentSize := size;
      }
      frame.Resize(size);
      var total := frame.addBorders(size.w, size.h);
      requests := requests + [SetGeometry(frame.location.0, frame.location.1, total.0, total.1)];
    }

    /** `set_min_size`: `None` means the default minimum; the bound including
        the borders goes to the shell surface. */
    method SetMinSize(size: Option<Size>)
      requires Valid()
      requires FitsI32Opt(size)
      modifies this
      ensures Valid()
      ensures var m := if size.Some? then size.value else MIN_WINDOW_SIZE;
        requests == old(requests) + [ShellRequest.SetMinSize(Some(frame.addBorders(m.w, m.h)))] &&
        (old(live) ==> minSize == m) && (!old(live) ==> minSize == old(minSize))
      ensures live == old(live) && maxSize == old(maxSize) && currentSize == old(currentSize)
      ensures oldSize == old(oldSize) && decorated == old(decorated) && events == old(events)
      ensures seats == old(seats) && decoration == old(decoration)
      ensures decorationRequests == old(decorationRequests)
    {
      var m := if size.Some? then size.value else MIN_WINDOW_SIZE;
      requests := requests + [ShellRequest.SetMinSize(Some(frame.addBorders(m.w, m.h)))];
      if live {
        minSize := m;
      }
    }

    /** `set_max_size`: `None` clears the maximum; the bound including the
        borders goes to the shell surface. */
    method SetMaxSize(size: Option<Size>)
      requires Valid()
      requires FitsI32Opt(size)
      modifies this
      ensures Valid()
      ensures requests == old(requests) +
        [ShellRequest.SetMaxSize(if size.Some? then Some(frame.addBorders(size.value.w, size.value.h)) else None)]
      ensures old(live) ==> maxSize == size
      ensures !old(live) ==> maxSize == old(maxSize)
      ensures live == old(live) && minSize == old(minSize) && currentSize == old(currentSize)
      ensures oldSize == old(oldSize) && decorated == old(decorated) && events == old(events)
      ensures seats == old(seats) && decoration == old(decoration)
      ensures decorationRequests == old(decorationRequests)
    {
      var bound := if size.Some? then Some(frame.addBorders(size.value.w, size.value.h)) else None;
      requests := requests + [ShellRequest.SetMaxSize(bound)];
      if live {
        maxSize := size;
      }
    }

    /** The pure forwarding requests: `set_maximized`, `unset_maximized`,
        `set_minimized`, `set_fullscreen`, `unset_fullscreen` and
        `start_interactive_move`. */
    method Request(r: ShellRequest)
      requires r.SetMaximized? || r.UnsetMaximized? || r.SetMinimized? ||
               r.SetFullscreen? || r.UnsetFullscreen? || r.InteractiveMove?
      modifies this
      ensures requests == old(requests) + [r]
      ensures live == old(live) && InnerState() == old(InnerState()) && events == old(events)
      ensures seats == old(seats) && decoration == old(decoration)
      ensures decorationRequests == old(decorationRequests) && constrained == old(constrained)
    {
      requests := requests + [r];
    }

    /** Dropping the window takes the inner state away. */
    method Drop()
      modifies this
      ensures !live
      ensures InnerState() == old(InnerState()) && requests == old(requests) && events == old(events)
      ensures seats == old(seats) && decoration == old(decoration)
      ensures decorationRequests == old(decorationRequests) && constrained == old(constrained)
    {
      live := false;
    }
  }

  /** The initial seat setup: every seat with a pointer that is not defunct
      is tracked and announced to the frame, in the order the seats are
      listed. */
  method AnnounceSeats(frame: Frame, allSeats: seq<SeatInfo>) returns (tracked: seq<SeatId>)
    modifies frame
    ensures tracked == InitialSeats(allSeats)
    ensures frame.View() == old(frame.View()).(seatCalls := old(frame.seatCalls) + AddedCalls(tracked))
  {
    ghost var view0 := frame.View();
    tracked := [];
    for i := 0 to |allSeats|
      invariant tracked == InitialSeats(allSeats[..i])
      invariant frame.View() == view0.(seatCalls := view0.seatCalls + AddedCalls(tracked))
    {
      InitialSeatsStep(allSeats, i);
      if Qualifies(allSeats[i]) {
        var seat := allSeats[i].seat;
        frame.SeatCalls([Added(seat)]);
        AddedCallsStep(tracked, seat);
        assert frame.seatCalls == view0.seatCalls + (AddedCalls(tracked) + [Added(seat)]);
        tracked := tracked + [seat];
      }
    }
    assert allSeats[..|allSeats|] == allSeats;
  }

  /** `create_window`: fails with the frame's own error when the frame could
      not initialise; otherwise the window is built around the frame. */
  method CreateWindow<E>(frameInit: Result<Frame, E>, initialDims: Size, hasManager: bool, isXdg: bool,
                         allSeats: seq<SeatInfo>) returns (r: Result<Window, E>)
    requires FitsI32(initialDims)
    requires forall i, j :: 0 <= i < j < |allSeats| ==> allSeats[i].seat != allSeats[j].seat
    modifies if frameInit.Ok? then {frameInit.value} else {}
    ensures frameInit.Err? ==> r == Err(frameInit.error)
    ensures frameInit.Ok? ==> r.Ok? && fresh(r.value) && r.value.Valid() && r.value.frame == frameInit.value
    ensures frameInit.Ok? ==> r.value.InnerState() == Inner(MIN_WINDOW_SIZE, None, initialDims, None, true)
    ensures frameInit.Ok? ==> var frame := frameInit.value;
      r.value.live &&
      frame.View() == old(frame.View()).(
        hidden := if hasManager then old(frame.hidden) else false,
        size := initialDims,
        seatCalls := old(frame.seatCalls) + AddedCalls(InitialSeats(allSeats))) &&
      r.value.requests == [ShellRequest.SetMinSize(Some(frame.addBorders(MIN_WINDOW_SIZE.w, MIN_WINDOW_SIZE.h))),
                           SetGeometry(frame.location.0, frame.location.1,
                                       frame.addBorders(initialDims.w, initialDims.h).0,
                                       frame.addBorders(initialDims.w, initialDims.h).1)] &&
      r.value.seats == InitialSeats(allSeats) &&
      r.value.events == [] && r.value.decorationRequests == [] &&
      r.value.decoration == (hasManager && isXdg)
  {
    match frameInit
    case Err(e) => r := Err(e);
    case Ok(frame) =>
      var w := new Window(frame, initialDims, hasManager, isXdg, allSeats);
      r := Ok(w);
  }
}
