/** The touch state machine of the legacy on-screen joystick, class
    `ControlStick` of Legacy/ControlStickLegacy.cs.

    One finger at a time owns the stick. A press claims it (and, outside Fixed
    mode, re-anchors the stick's bounds under the finger), a drag turns the
    finger's offset from the bounds into an input vector that is masked to an
    axis and quantised into three tiers, and a release gives the stick up and
    zeroes its output.

    Unity's coordinate projections, the canvas scale factor and the lengths
    and directions of vectors enter as parameters. Each handler is a function
    from the stick's state to its new state, and `Run` delivers a sequence of
    events; the lemmas at the end are about such runs. */
module StickLogic {
  import opened Vectors

  datatype StickMode = Fixed | Free | Floating

  datatype StickAxis = X | Y | Both

  datatype Option<T> = None | Some(value: T)

  /** The part of Unity's PointerEventData that the stick reads. */
  datatype PointerEvent = PointerEvent(pointerId: int, position: Vec2)

  /** The inspector settings of a stick. */
  datatype Settings = Settings(
    fullInputThreshold: real,
    followThreshold: real,
    stickRange: real,
    moveThreshold: real)

  /** The settings a stick starts with unless the inspector overrides them. */
  const DefaultSettings := Settings(0.75, 1.0, 1.0, 0.17)

  /** With the default settings all three tiers occur: a drag up to 0.17
      radii gives nothing, one up to 0.75 walks and a longer one runs. */
  lemma DefaultTiers()
    ensures forall m: real :: m <= 0.17 ==>
      TierFactor(m, DefaultSettings.moveThreshold, DefaultSettings.fullInputThreshold) == 0.0
    ensures forall m: real :: 0.17 < m < 0.75 ==>
      TierFactor(m, DefaultSettings.moveThreshold, DefaultSettings.fullInputThreshold) == WalkSpeed
    ensures forall m: real :: 0.75 <= m ==>
      TierFactor(m, DefaultSettings.moveThreshold, DefaultSettings.fullInputThreshold) == RunSpeed
  {
  }

  /** The layout of the stick's rectangles that the handlers read:
      the bounds' sizeDelta and anchorMax, and the input area's sizeDelta
      and pivot. */
  datatype Layout = Layout(
    boundsSize: Vec2,
    boundsAnchorMax: Vec2,
    areaSize: Vec2,
    areaPivot: Vec2)

  /** The two speed tiers of the output. */
  const WalkSpeed: real := 0.45
  const RunSpeed: real := 0.90

  // ---------------------------------------------------------------------------
  // Mode selection

  /** The integer that `SetJoystick` maps to each mode. */
  function ModeIndex(mode: StickMode): nat {
    match mode
    case Fixed => 0
    case Free => 1
    case Floating => 2
  }

  /** The mode `SetJoystick` selects for an index; `None` for an index its
      switch has no case for. */
  function ModeOfIndex(i: int): (r: Option<StickMode>)
    ensures r.Some? <==> 0 <= i <= 2
    ensures r.Some? ==> ModeIndex(r.value) == i
  {
    if i == 0 then Some(Fixed)
    else if i == 1 then Some(Free)
    else if i == 2 then Some(Floating)
    else None
  }

  /** Every mode can be selected, by its own index. */
  lemma ModeIndexRoundTrip(mode: StickMode)
    ensures ModeOfIndex(ModeIndex(mode)) == Some(mode)
  {
  }

  // ---------------------------------------------------------------------------
  // The pure parts of a drag

  /** Axis masking: the component of an axis-constrained stick that is not on
      its axis is dropped, the other kept exactly. */
  function Mask(axis: StickAxis, v: Vec2): (r: Vec2)
    ensures axis == X ==> r.y == 0.0
    ensures axis == Y ==> r.x == 0.0
    ensures axis != Y ==> r.x == v.x
    ensures axis != X ==> r.y == v.y
    ensures SqMag(r) <= SqMag(v)
  {
    match axis
    case X => Vec2(v.x, 0.0)
    case Y => Vec2(0.0, v.y)
    case Both => v
  }

  /** Masking twice is masking once. */
  lemma MaskIdempotent(axis: StickAxis, v: Vec2)
    ensures Mask(axis, Mask(axis, v)) == Mask(axis, v)
  {
  }

  /** The raw input of a drag: the finger's screen offset from the bounds'
      centre, measured in bounds radii (each radius scaled by the canvas). */
  function RawInputOf(position: Vec2, boundsOnScreen: Vec2, radius: Vec2, scaleFactor: real): (r: Vec2)
    requires radius.x != 0.0 && radius.y != 0.0 && scaleFactor != 0.0
    ensures Mul(r, Scale(radius, scaleFactor)) == Sub(position, boundsOnScreen)
  {
    Div(Sub(position, boundsOnScreen), Scale(radius, scaleFactor))
  }

  /** A finger on the bounds' centre gives no input. */
  lemma RawInputAtCentre(position: Vec2, radius: Vec2, scaleFactor: real)
    requires radius.x != 0.0 && radius.y != 0.0 && scaleFactor != 0.0
    ensures RawInputOf(position, position, radius, scaleFactor) == Zero
  {
  }

  /** The speed tier of a drag with magnitude `m`: nothing inside the dead
      zone, then walking speed below the full-input threshold and running
      speed from it on. */
  function TierFactor(m: real, moveThreshold: real, fullInputThreshold: real): (k: real)
    ensures k == 0.0 <==> m <= moveThreshold
    ensures k == WalkSpeed <==> moveThreshold < m < fullInputThreshold
    ensures k == RunSpeed <==> moveThreshold < m && fullInputThreshold <= m
  {
    if m > moveThreshold then (if m < fullInputThreshold then WalkSpeed else RunSpeed) else 0.0
  }

  /** The quantised output of a drag with normalised vector `u`. */
  function Quantise(m: real, u: Vec2, moveThreshold: real, fullInputThreshold: real): (r: Vec2)
    ensures m <= moveThreshold ==> r == Zero
    ensures moveThreshold < m < fullInputThreshold ==> r == Scale(u, WalkSpeed)
    ensures m > moveThreshold && m >= fullInputThreshold ==> r == Scale(u, RunSpeed)
  {
    Scale(u, TierFactor(m, moveThreshold, fullInputThreshold))
  }

  /** The quantised output keeps the masked input's direction and has exactly
      the tier's length: zero in the dead zone, 0.45 or 0.90 outside it. */
  lemma QuantiseMagnitude(v: Vec2, m: real, u: Vec2, moveThreshold: real, fullInputThreshold: real)
    requires IsPolar(v, m, u)
    requires moveThreshold >= 0.0
    ensures var k := TierFactor(m, moveThreshold, fullInputThreshold);
      SqMag(Quantise(m, u, moveThreshold, fullInputThreshold)) == k * k
    ensures m > 0.0 ==>
      Quantise(m, u, moveThreshold, fullInputThreshold)
        == Scale(v, TierFactor(m, moveThreshold, fullInputThreshold) / m)
  {
    var k := TierFactor(m, moveThreshold, fullInputThreshold);
    var q := Quantise(m, u, moveThreshold, fullInputThreshold);
    assert q == Scale(u, k);
    SqMagScale(u, k);
    if m > 0.0 {
      assert SqMag(u) == 1.0;
      assert v.x == u.x * m && v.y == u.y * m;
      assert u.x * k == v.x * (k / m);
      assert u.y * k == v.y * (k / m);
    } else {
      assert k == 0.0;
    }
  }

  /** The tiers never decrease as the finger moves further out. */
  lemma TierMonotone(m1: real, m2: real, moveThreshold: real, fullInputThreshold: real)
    requires m1 <= m2
    ensures TierFactor(m1, moveThreshold, fullInputThreshold)
         <= TierFactor(m2, moveThreshold, fullInputThreshold)
  {
  }

  /** At the dead-zone boundary the output is still zero. */
  lemma DeadZoneBoundary(moveThreshold: real, fullInputThreshold: real)
    ensures TierFactor(moveThreshold, moveThreshold, fullInputThreshold) == 0.0
  {
  }

  /** At a magnitude of exactly the full-input threshold (above the dead zone)
      the output is already in the running tier, although the drag does not
      yet count as full input: `ProcessInput` sets the flag only for a
      magnitude strictly above the threshold. */
  lemma FullInputBoundary(moveThreshold: real, fullInputThreshold: real)
    requires moveThreshold < fullInputThreshold
    ensures TierFactor(fullInputThreshold, moveThreshold, fullInputThreshold) == RunSpeed
  {
  }

  /** Where the bounds are after a drag: in Floating mode, once the masked
      input is longer than the follow threshold, they move along it by the
      excess, in bounds radii; in every other case they stay put. */
  function Followed(mode: StickMode, anchor: Vec2, m: real, u: Vec2, followThreshold: real, radius: Vec2): (r: Vec2)
    ensures mode != Floating || m <= followThreshold ==> r == anchor
    ensures mode == Floating && m > followThreshold ==>
      Sub(r, anchor) == Mul(Scale(u, m - followThreshold), radius)
  {
    if mode == Floating && m > followThreshold then
      Add(anchor, Mul(Scale(u, m - followThreshold), radius))
    else
      anchor
  }

  /** Following pulls the bounds after the finger just far enough that the
      finger ends up exactly the follow threshold from their new centre, in
      the direction it was dragged. The hypothesis on `movedOnScreen` says
      that the bounds' centre moves on the screen by their anchor shift times
      the canvas scale, as it does on a screen-space canvas. Then a drag from
      the same finger position against the moved bounds has a masked input of
      length `followThreshold` along `normalized`, whatever the axis. */
  lemma FollowedFingerAtThreshold(axis: StickAxis, position: Vec2, boundsOnScreen: Vec2,
                                  radius: Vec2, scaleFactor: real, magnitude: real,
                                  normalized: Vec2, followThreshold: real, anchor: Vec2,
                                  movedOnScreen: Vec2)
    requires radius.x != 0.0 && radius.y != 0.0 && scaleFactor != 0.0
    requires IsPolar(Mask(axis, RawInputOf(position, boundsOnScreen, radius, scaleFactor)),
                     magnitude, normalized)
    requires followThreshold > 0.0 && magnitude > followThreshold
    requires movedOnScreen == Add(boundsOnScreen,
      Scale(Sub(Followed(Floating, anchor, magnitude, normalized, followThreshold, radius), anchor),
            scaleFactor))
    ensures Mask(axis, RawInputOf(position, movedOnScreen, radius, scaleFactor))
            == Scale(normalized, followThreshold)
    ensures IsPolar(Mask(axis, RawInputOf(position, movedOnScreen, radius, scaleFactor)),
                    followThreshold, normalized)
  {
    var k := magnitude - followThreshold;
    var shift := Scale(normalized, k);
    var v := RawInputOf(position, boundsOnScreen, radius, scaleFactor);
    assert Sub(Followed(Floating, anchor, magnitude, normalized, followThreshold, radius), anchor)
        == Mul(shift, radius);
    RawInputAfterShift(position, boundsOnScreen, radius, scaleFactor, shift);
    MaskAlongDirection(axis, v, magnitude, normalized, k);
    assert Sub(Scale(normalized, magnitude), shift) == Scale(normalized, followThreshold);
  }

  /** Moving the bounds' centre on the screen by `shift` radii (scaled by the
      canvas) lowers the raw input by exactly `shift`. */
  lemma RawInputAfterShift(position: Vec2, boundsOnScreen: Vec2, radius: Vec2, scaleFactor: real, shift: Vec2)
    requires radius.x != 0.0 && radius.y != 0.0 && scaleFactor != 0.0
    ensures RawInputOf(position, Add(boundsOnScreen, Scale(Mul(shift, radius), scaleFactor)), radius, scaleFactor)
         == Sub(RawInputOf(position, boundsOnScreen, radius, scaleFactor), shift)
  {
    var before := RawInputOf(position, boundsOnScreen, radius, scaleFactor);
    var after := RawInputOf(position, Add(boundsOnScreen, Scale(Mul(shift, radius), scaleFactor)), radius, scaleFactor);
    ComponentShift(position.x, boundsOnScreen.x, radius.x, scaleFactor, shift.x, before.x, after.x);
    ComponentShift(position.y, boundsOnScreen.y, radius.y, scaleFactor, shift.y, before.y, after.y);
  }

  /** One component of RawInputAfterShift: if `before` and `after` are the
      offsets of `p` from `b` and from `b + c * r * k` in units of `r * k`,
      then `after` is `before - c`. */
  lemma ComponentShift(p: real, b: real, r: real, k: real, c: real, before: real, after: real)
    requires r != 0.0 && k != 0.0
    requires before * (r * k) == p - b
    requires after * (r * k) == p - (b + (c * r) * k)
    ensures after == before - c
  {
    var d := r * k;
    assert d != 0.0;
    assert (c * r) * k == c * d;
    assert (after - (before - c)) * d == 0.0;
  }

  /** The normalised masked input has no component off the axis, so taking a
      multiple of it away commutes with masking. */
  lemma MaskAlongDirection(axis: StickAxis, v: Vec2, m: real, u: Vec2, k: real)
    requires IsPolar(Mask(axis, v), m, u) && m > 0.0
    ensures Mask(axis, Sub(v, Scale(u, k))) == Sub(Mask(axis, v), Scale(u, k))
  {
    assert Scale(u, m) == Mask(axis, v);
    if axis == X { ZeroFactor(u.y, m); }
    if axis == Y { ZeroFactor(u.x, m); }
  }

  /** A product with a non-zero factor is zero only when the other is. */
  lemma ZeroFactor(a: real, m: real)
    requires m != 0.0 && a * m == 0.0
    ensures a == 0.0
  {
  }

  /** Where a press puts the bounds outside Fixed mode: at the touched point,
      shifted from the input area's anchor frame into the bounds' one; at the
      origin when the projection found no point. */
  function AnchorOnDown(inRect: bool, localPoint: Vec2, layout: Layout): (r: Vec2)
    ensures !inRect ==> r == Zero
    ensures inRect ==>
      Add(r, Mul(layout.boundsAnchorMax, layout.areaSize))
        == Add(localPoint, Mul(layout.areaPivot, layout.areaSize))
  {
    if inRect then
      Add(Sub(localPoint, Mul(layout.boundsAnchorMax, layout.areaSize)),
          Mul(layout.areaPivot, layout.areaSize))
    else
      Zero
  }

  // ---------------------------------------------------------------------------
  // The stick's state as a value, and what each handler does to it

  /** What stays fixed for the life of a stick: its settings, its layout and
      the position FormatControlStick saved for Fixed mode. */
  datatype Config = Config(settings: Settings, layout: Layout, fixedPosition: Vec2)

  /** The bounds have a size, so a drag can divide by their radius. */
  predicate ConfigOk(c: Config) {
    c.layout.boundsSize.x > 0.0 && c.layout.boundsSize.y > 0.0
  }

  /** Half the bounds' size. */
  function Radius(layout: Layout): (r: Vec2)
    ensures Scale(r, 2.0) == layout.boundsSize
  {
    Vec2(layout.boundsSize.x / 2.0, layout.boundsSize.y / 2.0)
  }

  /** The fields of a stick that its handlers change. */
  datatype StickState = StickState(
    stickMode: StickMode,
    stickAxis: StickAxis,
    fullInput: bool,
    rawInput: Vec2,
    input: Vec2,
    touched: bool,
    touchId: int,
    /** stickBounds.anchoredPosition */
    boundsAnchor: Vec2,
    /** whether stickBounds' game object is active */
    boundsActive: bool,
    /** stickHandle.anchoredPosition */
    handleAnchor: Vec2,
    /** raycastTarget of the input area's Image */
    raycastTarget: bool)

  /** In Fixed mode the bounds sit at the fixed position. */
  predicate Anchored(c: Config, s: StickState) {
    s.stickMode == Fixed ==> s.boundsAnchor == c.fixedPosition
  }

  /** What the StickMode setter establishes: in Fixed mode the bounds show
      and the input area lets presses through; in the other modes the input
      area catches presses. */
  predicate Configured(s: StickState) {
    (s.stickMode == Fixed ==> s.boundsActive && !s.raycastTarget) &&
    (s.stickMode != Fixed ==> s.raycastTarget)
  }

  /** Neither who owns the stick nor its configuration has changed, only its
      output, its handle and possibly its bounds. */
  predicate SameOwnerAndConfig(s: StickState, r: StickState) {
    r.touched == s.touched && r.touchId == s.touchId &&
    r.stickMode == s.stickMode && r.stickAxis == s.stickAxis &&
    r.raycastTarget == s.raycastTarget
  }

  /** The StickMode setter. */
  function WithMode(c: Config, s: StickState, mode: StickMode): (r: StickState)
    ensures r.stickMode == mode && Configured(r) && Anchored(c, r)
    ensures r.touched == s.touched && r.touchId == s.touchId && r.stickAxis == s.stickAxis
    ensures r.input == s.input && r.fullInput == s.fullInput && r.handleAnchor == s.handleAnchor
    ensures r.rawInput == s.rawInput
    ensures mode != Fixed ==> r.boundsAnchor == s.boundsAnchor && r.boundsActive == s.boundsActive
  {
    if mode == Fixed then
      s.(stickMode := mode, boundsAnchor := c.fixedPosition, boundsActive := true, raycastTarget := false)
    else
      s.(stickMode := mode, raycastTarget := true)
  }

  /** SetJoystick. */
  function Selected(c: Config, s: StickState, index: int): (r: StickState)
    ensures ModeOfIndex(index).None? ==> r == s
    ensures ModeOfIndex(index).Some? ==> r == WithMode(c, s, ModeOfIndex(index).value)
  {
    match ModeOfIndex(index)
    case Some(mode) => WithMode(c, s, mode)
    case None => s
  }

  /** ProcessInput, for a masked input of length `m` and direction `u`. */
  function Processed(c: Config, s: StickState, m: real, u: Vec2, radius: Vec2): (r: StickState)
    ensures SameOwnerAndConfig(s, r) && r.boundsActive == s.boundsActive && r.rawInput == s.rawInput
    ensures r.fullInput == (m > c.settings.fullInputThreshold)
    ensures r.input == Scale(u, TierFactor(m, c.settings.moveThreshold, c.settings.fullInputThreshold))
    ensures r.handleAnchor == Mul(Scale(r.input, c.settings.stickRange), radius)
    ensures r.boundsAnchor == Followed(s.stickMode, s.boundsAnchor, m, u, c.settings.followThreshold, radius)
    ensures Anchored(c, s) ==> Anchored(c, r)
  {
    var input := Quantise(m, u, c.settings.moveThreshold, c.settings.fullInputThreshold);
    s.(boundsAnchor := Followed(s.stickMode, s.boundsAnchor, m, u, c.settings.followThreshold, radius),
       fullInput := m > c.settings.fullInputThreshold,
       input := input,
       handleAnchor := Mul(Scale(input, c.settings.stickRange), radius))
  }

  /** Whether a drag with this pointer id is handled. */
  predicate Owns(s: StickState, pointerId: int) {
    s.touched && pointerId == s.touchId
  }

  /** OnDrag: the owner's drag sets the raw input from the finger's offset to
      the bounds' centre on the screen and processes its masked form; any
      other drag leaves the state as it is. */
  function Dragged(c: Config, s: StickState, e: PointerEvent, boundsOnScreen: Vec2, scaleFactor: real,
                   m: real, u: Vec2): (r: StickState)
    requires ConfigOk(c)
    requires Owns(s, e.pointerId) ==> scaleFactor != 0.0
    ensures !Owns(s, e.pointerId) ==> r == s
    ensures Owns(s, e.pointerId) ==>
      && r.rawInput == RawInputOf(e.position, boundsOnScreen, Radius(c.layout), scaleFactor)
      && r.fullInput == (m > c.settings.fullInputThreshold)
      && r.input == Scale(u, TierFactor(m, c.settings.moveThreshold, c.settings.fullInputThreshold))
      && r.handleAnchor == Mul(Scale(r.input, c.settings.stickRange), Radius(c.layout))
      && r.boundsAnchor == Followed(s.stickMode, s.boundsAnchor, m, u, c.settings.followThreshold, Radius(c.layout))
    ensures SameOwnerAndConfig(s, r) && r.boundsActive == s.boundsActive
    ensures Anchored(c, s) ==> Anchored(c, r)
  {
    if !Owns(s, e.pointerId) then s
    else
      var radius := Radius(c.layout);
      var raw := RawInputOf(e.position, boundsOnScreen, radius, scaleFactor);
      Processed(c, s.(rawInput := raw, input := Mask(s.stickAxis, raw)), m, u, radius)
  }

  /** OnPointerDown: the first press claims the stick for its pointer, moves
      the bounds under it and shows them outside Fixed mode, and is then
      handled as a drag; a press while the stick is touched changes nothing. */
  function Pressed(c: Config, s: StickState, e: PointerEvent, inRect: bool, localPoint: Vec2,
                   boundsOnScreen: Vec2, scaleFactor: real, m: real, u: Vec2): (r: StickState)
    requires ConfigOk(c)
    requires !s.touched ==> scaleFactor != 0.0
    ensures s.touched ==> r == s
    ensures !s.touched ==> r.touched && r.touchId == e.pointerId
    ensures r.stickMode == s.stickMode && r.stickAxis == s.stickAxis && r.raycastTarget == s.raycastTarget
    ensures !s.touched && s.stickMode != Fixed ==> r.boundsActive
    ensures s.stickMode == Fixed ==> r.boundsActive == s.boundsActive
    ensures !s.touched ==>
      && r.rawInput == RawInputOf(e.position, boundsOnScreen, Radius(c.layout), scaleFactor)
      && r.fullInput == (m > c.settings.fullInputThreshold)
      && r.input == Quantise(m, u, c.settings.moveThreshold, c.settings.fullInputThreshold)
      && r.handleAnchor == Mul(Scale(r.input, c.settings.stickRange), Radius(c.layout))
      && r.boundsAnchor == Followed(s.stickMode, PressAnchor(c, s, inRect, localPoint), m, u,
                                    c.settings.followThreshold, Radius(c.layout))
    ensures Anchored(c, s) ==> Anchored(c, r)
  {
    if s.touched then s
    else Dragged(c, Claimed(c, s, e.pointerId, inRect, localPoint), e, boundsOnScreen, scaleFactor, m, u)
  }

  /** Where the bounds are once a press has claimed the stick: under the
      finger outside Fixed mode, where they were in Fixed mode. */
  function PressAnchor(c: Config, s: StickState, inRect: bool, localPoint: Vec2): (r: Vec2)
    ensures s.stickMode != Fixed ==> r == AnchorOnDown(inRect, localPoint, c.layout)
    ensures s.stickMode == Fixed ==> r == s.boundsAnchor
  {
    if s.stickMode != Fixed then AnchorOnDown(inRect, localPoint, c.layout) else s.boundsAnchor
  }

  /** The first part of a press: the stick is claimed for the pointer and,
      outside Fixed mode, its bounds are placed under the finger and shown. */
  function Claimed(c: Config, s: StickState, pointerId: int, inRect: bool, localPoint: Vec2): (r: StickState)
    ensures Owns(r, pointerId)
    ensures r.stickMode == s.stickMode && r.stickAxis == s.stickAxis && r.raycastTarget == s.raycastTarget
    ensures r.boundsActive == (s.stickMode != Fixed || s.boundsActive)
    ensures r.boundsAnchor == PressAnchor(c, s, inRect, localPoint)
    ensures r.rawInput == s.rawInput && r.input == s.input && r.fullInput == s.fullInput
    ensures r.handleAnchor == s.handleAnchor
    ensures Anchored(c, s) ==> Anchored(c, r)
  {
    var claimed := s.(touched := true, touchId := pointerId);
    if claimed.stickMode != Fixed
    then claimed.(boundsAnchor := AnchorOnDown(inRect, localPoint, c.layout), boundsActive := true)
    else claimed
  }

  /** OnPointerUp: a release with the owning id gives the stick up, hides the
      bounds outside Fixed mode and zeroes the output and the handle; the
      release of any other id changes nothing. `touched` is not consulted. */
  function Released(s: StickState, pointerId: int): (r: StickState)
    ensures pointerId != s.touchId ==> r == s
    ensures pointerId == s.touchId ==>
      !r.touched && !r.fullInput && r.input == Zero && r.handleAnchor == Zero &&
      r.boundsActive == (s.stickMode == Fixed && s.boundsActive)
    ensures r.touchId == s.touchId && r.stickMode == s.stickMode && r.stickAxis == s.stickAxis
    ensures r.raycastTarget == s.raycastTarget && r.boundsAnchor == s.boundsAnchor
    ensures r.rawInput == s.rawInput
  {
    if pointerId != s.touchId then s
    else
      s.(touched := false,
         boundsActive := if s.stickMode != Fixed then false else s.boundsActive,
         fullInput := false,
         input := Zero,
         handleAnchor := Zero)
  }

  // ---------------------------------------------------------------------------
  // Runs of events

  /** One event delivered to the stick: a press, a drag or a release with
      what Unity's projections and the vector lengths give for it, or a mode
      selection through SetJoystick. */
  datatype TouchEvent =
    | Press(e: PointerEvent, inRect: bool, localPoint: Vec2, boundsOnScreen: Vec2,
            scaleFactor: real, magnitude: real, normalized: Vec2)
    | Move(e: PointerEvent, boundsOnScreen: Vec2, scaleFactor: real, magnitude: real, normalized: Vec2)
    | Release(pointerId: int)
    | Select(index: int)

  /** What every press and drag carries, whatever the stick's state: a
      canvas scale that is not zero, and a direction that is a unit vector or
      zero, as Unity's `normalized` is. */
  predicate EventOk(ev: TouchEvent) {
    (ev.Press? || ev.Move?) ==> ev.scaleFactor != 0.0 && IsDirection(ev.normalized)
  }

  predicate EventsOk(evs: seq<TouchEvent>) {
    forall i :: 0 <= i < |evs| ==> EventOk(evs[i])
  }

  function Apply(c: Config, s: StickState, ev: TouchEvent): StickState
    requires ConfigOk(c) && EventOk(ev)
  {
    match ev
    case Press(e, inRect, localPoint, b, k, m, u) => Pressed(c, s, e, inRect, localPoint, b, k, m, u)
    case Move(e, b, k, m, u) => Dragged(c, s, e, b, k, m, u)
    case Release(id) => Released(s, id)
    case Select(i) => Selected(c, s, i)
  }

  /** The state after delivering the events in order. */
  function Run(c: Config, s: StickState, evs: seq<TouchEvent>): StickState
    requires ConfigOk(c) && EventsOk(evs)
    decreases |evs|
  {
    if evs == [] then s else Run(c, Apply(c, s, evs[0]), evs[1..])
  }

  /** Delivering one more event is applying it to the state the run left. */
  lemma {:induction false} RunSnoc(c: Config, s: StickState, evs: seq<TouchEvent>, ev: TouchEvent)
    requires ConfigOk(c) && EventsOk(evs) && EventOk(ev)
    ensures EventsOk(evs + [ev])
    ensures Run(c, s, evs + [ev]) == Apply(c, Run(c, s, evs), ev)
    decreases |evs|
  {
    assert EventsOk(evs + [ev]) by {
      forall i | 0 <= i < |evs + [ev]| ensures EventOk((evs + [ev])[i]) {
        if i < |evs| { assert (evs + [ev])[i] == evs[i]; }
      }
    }
    if evs != [] {
      assert (evs + [ev])[1..] == evs[1..] + [ev];
      assert EventsOk(evs[1..]) by {
        forall i | 0 <= i < |evs[1..]| ensures EventOk(evs[1..][i]) { assert evs[1..][i] == evs[i + 1]; }
      }
      RunSnoc(c, Apply(c, s, evs[0]), evs[1..], ev);
    }
  }

  /** No event is the owner's release. */
  predicate NoReleaseBy(evs: seq<TouchEvent>, id: int) {
    forall i :: 0 <= i < |evs| ==> !(evs[i].Release? && evs[i].pointerId == id)
  }

  lemma TailOk(evs: seq<TouchEvent>)
    requires evs != [] && EventsOk(evs)
    ensures EventOk(evs[0]) && EventsOk(evs[1..])
  {
    assert EventOk(evs[0]);
    forall i | 0 <= i < |evs[1..]| ensures EventOk(evs[1..][i]) { assert evs[1..][i] == evs[i + 1]; }
  }

  /** First claim wins: once a finger owns the stick, no press, drag, mode
      selection or release by another pointer takes it away; only the owner's
      own release does. */
  lemma {:induction false} OwnerKeepsStick(c: Config, s: StickState, evs: seq<TouchEvent>)
    requires ConfigOk(c) && EventsOk(evs)
    requires s.touched && NoReleaseBy(evs, s.touchId)
    ensures Run(c, s, evs).touched && Run(c, s, evs).touchId == s.touchId
    decreases |evs|
  {
    if evs != [] {
      TailOk(evs);
      var next := Apply(c, s, evs[0]);
      assert !(evs[0].Release? && evs[0].pointerId == s.touchId);
      assert next.touched && next.touchId == s.touchId;
      assert NoReleaseBy(evs[1..], s.touchId) by {
        forall i | 0 <= i < |evs[1..]|
          ensures !(evs[1..][i].Release? && evs[1..][i].pointerId == s.touchId)
        {
          assert evs[1..][i] == evs[i + 1];
        }
      }
      OwnerKeepsStick(c, next, evs[1..]);
    }
  }

  /** In Fixed mode the stick never moves: whatever events arrive, whenever
      the stick is (or becomes) Fixed its bounds are at the fixed position. */
  lemma {:induction false} AnchoredThroughout(c: Config, s: StickState, evs: seq<TouchEvent>)
    requires ConfigOk(c) && EventsOk(evs) && Anchored(c, s)
    ensures Anchored(c, Run(c, s, evs))
    decreases |evs|
  {
    if evs != [] {
      TailOk(evs);
      AnchoredThroughout(c, Apply(c, s, evs[0]), evs[1..]);
    }
  }

  /** Once the StickMode setter has run, the visibility and raycast it set up
      stay consistent with the mode whatever events arrive. */
  lemma {:induction false} ConfiguredThroughout(c: Config, s: StickState, evs: seq<TouchEvent>)
    requires ConfigOk(c) && EventsOk(evs) && Configured(s)
    ensures Configured(Run(c, s, evs))
    decreases |evs|
  {
    if evs != [] {
      TailOk(evs);
      var next := Apply(c, s, evs[0]);
      assert Configured(next);
      ConfiguredThroughout(c, next, evs[1..]);
    }
  }

  /** An untouched stick ignores drags: any number of them change nothing. */
  lemma {:induction false} UntouchedIgnoresDrags(c: Config, s: StickState, evs: seq<TouchEvent>)
    requires ConfigOk(c) && EventsOk(evs) && !s.touched
    requires forall i :: 0 <= i < |evs| ==> evs[i].Move?
    ensures Run(c, s, evs) == s
    decreases |evs|
  {
    if evs != [] {
      TailOk(evs);
      assert Apply(c, s, evs[0]) == s;
      UntouchedIgnoresDrags(c, s, evs[1..]);
    }
  }

  /** A release always ends in the same place: whatever happened before, the
      owner's release leaves the stick untouched with no output, no full
      input and the handle centred. */
  lemma ReleaseEndsAtRest(c: Config, s: StickState, evs: seq<TouchEvent>, ev: TouchEvent)
    requires ConfigOk(c) && EventsOk(evs)
    requires ev.Release? && ev.pointerId == Run(c, s, evs).touchId
    ensures EventsOk(evs + [ev])
    ensures var r := Run(c, s, evs + [ev]);
      !r.touched && !r.fullInput && r.input == Zero && r.handleAnchor == Zero
  {
    RunSnoc(c, s, evs, ev);
  }

  /** A squared length of one of the three tiers: none, walking or running. */
  predicate OnTier(q: real) {
    q == 0.0 || q == WalkSpeed * WalkSpeed || q == RunSpeed * RunSpeed
  }

  /** The output has one of the three tier lengths. */
  predicate Tiered(s: StickState) {
    OnTier(SqMag(s.input))
  }

  /** A quantised output along a unit or zero direction has a tier length. */
  lemma QuantiseTiered(m: real, u: Vec2, moveThreshold: real, fullInputThreshold: real)
    requires IsDirection(u)
    ensures OnTier(SqMag(Quantise(m, u, moveThreshold, fullInputThreshold)))
  {
    var k := TierFactor(m, moveThreshold, fullInputThreshold);
    SqMagScale(u, k);
    if u == Zero {
      assert Scale(u, k) == Zero;
    } else {
      assert SqMag(Scale(u, k)) == k * k;
    }
  }

  /** One event keeps the output on a tier. */
  lemma ApplyKeepsTiered(c: Config, s: StickState, ev: TouchEvent)
    requires ConfigOk(c) && EventOk(ev) && Tiered(s)
    ensures Tiered(Apply(c, s, ev))
  {
    var r := Apply(c, s, ev);
    match ev
    case Press(e, inRect, localPoint, b, k, m, u) =>
      if !s.touched {
        QuantiseTiered(m, u, c.settings.moveThreshold, c.settings.fullInputThreshold);
      }
    case Move(e, b, k, m, u) =>
      if Owns(s, e.pointerId) {
        QuantiseTiered(m, u, c.settings.moveThreshold, c.settings.fullInputThreshold);
      }
    case Release(id) =>
      assert r.input == Zero || r.input == s.input;
    case Select(i) =>
      assert r.input == s.input;
  }

  /** Whatever happens, the stick's output stays quantised: its length is
      0, 0.45 or 0.90 after every event. */
  lemma {:induction false} TieredThroughout(c: Config, s: StickState, evs: seq<TouchEvent>)
    requires ConfigOk(c) && EventsOk(evs) && Tiered(s)
    ensures Tiered(Run(c, s, evs))
    decreases |evs|
  {
    if evs != [] {
      TailOk(evs);
      ApplyKeepsTiered(c, s, evs[0]);
      TieredThroughout(c, Apply(c, s, evs[0]), evs[1..]);
    }
  }

  /** The quirk at the release handler: it does not look at `touched`, so a
      second release by the last owner does the same reset again, and
      releasing twice is no different from releasing once. */
  lemma ReleaseIdempotent(s: StickState, pointerId: int)
    ensures Released(Released(s, pointerId), pointerId) == Released(s, pointerId)
  {
  }
}
