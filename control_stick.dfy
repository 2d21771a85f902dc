/** Class `ControlStick` of Legacy/ControlStickLegacy.cs: the stick's fields
    and one method per handler and setter, each updating the fields in place
    as the source does. The contract of every handler, of the StickMode
    setter and of SetJoystick gives the new state as the matching transition
    of module StickLogic applied to the old one; the other setters give it as
    the old state with the fields they write replaced. The events the class
    raises are recorded, in order, in a ghost log. */
module ControlStickLegacy {
  import opened Vectors
  import opened StickLogic

  /** An event the stick raises: OnStickDrag with the output, or
      OnStickFullInput with the flag. */
  datatype Raised = Drag(output: Vec2) | Full(flag: bool)

  class ControlStick {
    const fullInputThreshold: real
    const followThreshold: real
    const stickRange: real
    const moveThreshold: real
    const layout: Layout
    /** Where the bounds were when the stick was set up; Fixed mode returns
        them there. */
    const fixedPosition: Vec2

    var stickMode: StickMode
    var stickAxis: StickAxis
    var fullInput: bool
    var rawInput: Vec2
    var input: Vec2
    var touched: bool
    var touchId: int
    /** stickBounds.anchoredPosition */
    var boundsAnchor: Vec2
    /** whether stickBounds' game object is active */
    var boundsActive: bool
    /** stickHandle.anchoredPosition */
    var handleAnchor: Vec2
    /** raycastTarget of the input area's Image */
    var raycastTarget: bool

    /** The events raised so far, oldest first. */
    ghost var raised: seq<Raised>

    /** The stick's settings, layout and fixed position. */
    function Cfg(): Config {
      Config(Settings(fullInputThreshold, followThreshold, stickRange, moveThreshold), layout, fixedPosition)
    }

    /** The fields the handlers change, as one value. */
    function State(): StickState
      reads this
    {
      StickState(stickMode, stickAxis, fullInput, rawInput, input, touched, touchId,
                 boundsAnchor, boundsActive, handleAnchor, raycastTarget)
    }

    /** The bounds have a positive size, and in Fixed mode they sit at the
        fixed position. */
    ghost predicate Valid()
      reads this
    {
      ConfigOk(Cfg()) && Anchored(Cfg(), State())
    }

    /** A stick with its inspector state, after Start has run
        FormatControlStick: the bounds' current position is saved as the
        fixed position and the handle is centred. */
    constructor (settings: Settings, layout: Layout, stickMode: StickMode, stickAxis: StickAxis,
                 fullInput: bool, boundsAnchor: Vec2, boundsActive: bool, raycastTarget: bool)
      requires layout.boundsSize.x > 0.0 && layout.boundsSize.y > 0.0
      ensures Valid()
      ensures Cfg() == Config(settings, layout, boundsAnchor)
      ensures State() == StickState(stickMode, stickAxis, fullInput, Zero, Zero, false, 0,
                                    boundsAnchor, boundsActive, Zero, raycastTarget)
      ensures raised == []
    {
      fullInputThreshold := settings.fullInputThreshold;
      followThreshold := settings.followThreshold;
      stickRange := settings.stickRange;
      moveThreshold := settings.moveThreshold;
      this.layout := layout;
      this.stickMode := stickMode;
      this.stickAxis := stickAxis;
      this.fullInput := fullInput;
      rawInput := Zero;
      input := Zero;
      touched := false;
      touchId := 0;
      this.boundsAnchor := boundsAnchor;
      this.boundsActive := boundsActive;
      this.raycastTarget := raycastTarget;
      raised := [];
      // FormatControlStick
      fixedPosition := boundsAnchor;
      handleAnchor := Zero;
    }

    /** The StickMode setter. */
    method SetStickMode(value: StickMode)
      requires Valid()
      modifies this`stickMode, this`boundsAnchor, this`boundsActive, this`raycastTarget
      ensures Valid()
      ensures State() == WithMode(Cfg(), old(State()), value)
    {
      stickMode := value;
      if stickMode == Fixed {
        boundsAnchor := fixedPosition;
        boundsActive := true;
        raycastTarget := false;
      } else {
        raycastTarget := true;
      }
    }

    /** The StickAxis setter. */
    method SetStickAxis(value: StickAxis)
      requires Valid()
      modifies this`stickAxis
      ensures Valid()
      ensures State() == old(State()).(stickAxis := value)
    {
      stickAxis := value;
    }

    /** The FullInput setter: it stores the value and raises OnStickFullInput
        with it every time, whether or not the value changed. */
    method SetFullInput(value: bool)
      requires Valid()
      modifies this`fullInput, this`raised
      ensures Valid()
      ensures State() == old(State()).(fullInput := value)
      ensures raised == old(raised) + [Full(value)]
    {
      fullInput := value;
      raised := raised + [Full(fullInput)];
    }

    /** The RawInput setter: it keeps the value as given and stores its
        masked form as the input. */
    method SetRawInput(value: Vec2)
      requires Valid()
      modifies this`rawInput, this`input
      ensures Valid()
      ensures State() == old(State()).(rawInput := value, input := Mask(stickAxis, value))
    {
      rawInput := value;
      input := value;
      input := if stickAxis == X then Vec2(input.x, 0.0)
               else if stickAxis == Y then Vec2(0.0, input.y)
               else input;
    }

    /** The tail of a drag, for a masked input of length `magnitude` and
        direction `normalized`: follow, full-input flag, quantised output,
        handle position and the drag event. */
    method ProcessInput(magnitude: real, normalized: Vec2, radius: Vec2)
      requires Valid()
      modifies this`boundsAnchor, this`fullInput, this`input, this`handleAnchor, this`raised
      ensures Valid()
      ensures State() == Processed(Cfg(), old(State()), magnitude, normalized, radius)
      ensures raised == old(raised) + [Full(fullInput), Drag(input)]
    {
      if stickMode == Floating && magnitude > followThreshold {
        var difference := Mul(Scale(normalized, magnitude - followThreshold), radius);
        boundsAnchor := Add(boundsAnchor, difference);
      }
      assert boundsAnchor
          == Followed(stickMode, old(boundsAnchor), magnitude, normalized, followThreshold, radius);
      SetFullInput(magnitude > fullInputThreshold);
      input := if magnitude > moveThreshold then
                 (if magnitude < fullInputThreshold then Scale(normalized, WalkSpeed)
                  else Scale(normalized, RunSpeed))
               else Zero;
      handleAnchor := Mul(Scale(input, stickRange), radius);
      raised := raised + [Drag(input)];
    }

    /** A drag. `boundsOnScreen` is the bounds' centre projected to the screen
        and `scaleFactor` the canvas scale; `magnitude` and `normalized` are
        the length and direction of the masked raw input the drag produces.
        Only the owning pointer drags the stick. */
    method OnDrag(e: PointerEvent, boundsOnScreen: Vec2, scaleFactor: real,
                  magnitude: real, normalized: Vec2)
      requires Valid()
      requires Owns(State(), e.pointerId) ==>
        scaleFactor > 0.0 &&
        IsPolar(Mask(stickAxis, RawInputOf(e.position, boundsOnScreen, Radius(layout), scaleFactor)),
                magnitude, normalized)
      modifies this
      ensures Valid()
      ensures State() == Dragged(Cfg(), old(State()), e, boundsOnScreen, scaleFactor, magnitude, normalized)
      ensures !Owns(old(State()), e.pointerId) ==> unchanged(this)
      ensures Owns(old(State()), e.pointerId) ==>
        raised == old(raised) + [Full(fullInput), Drag(input)]
    {
      if !touched || e.pointerId != touchId {
        return;
      }
      var radius := Radius(layout);
      SetRawInput(RawInputOf(e.position, boundsOnScreen, radius, scaleFactor));
      ProcessInput(magnitude, normalized, radius);
    }

    /** A press. The first press claims the stick; while it is claimed, every
        press is ignored. Outside Fixed mode the bounds are re-anchored under
        the finger (`inRect` and `localPoint` are the projection of the press
        into the input area) and shown; then the press is handled as a drag,
        with `boundsOnScreen` the re-anchored bounds' centre on the screen. */
    method OnPointerDown(e: PointerEvent, inRect: bool, localPoint: Vec2,
                         boundsOnScreen: Vec2, scaleFactor: real,
                         magnitude: real, normalized: Vec2)
      requires Valid()
      requires !touched ==>
        scaleFactor > 0.0 &&
        IsPolar(Mask(stickAxis, RawInputOf(e.position, boundsOnScreen, Radius(layout), scaleFactor)),
                magnitude, normalized)
      modifies this
      ensures Valid()
      ensures State() == Pressed(Cfg(), old(State()), e, inRect, localPoint, boundsOnScreen, scaleFactor,
                                 magnitude, normalized)
      ensures old(touched) ==> unchanged(this)
      ensures !old(touched) ==>
        raised == old(raised) + [Full(fullInput), Drag(input)]
    {
      if touched {
        return;
      }
      touched := true;
      touchId := e.pointerId;
      // The source returns here on a pointer mismatch, which cannot happen
      // right after the assignment above.
      assert e.pointerId == touchId;
      if stickMode != Fixed {
        boundsAnchor := AnchorOnDown(inRect, localPoint, layout);
        boundsActive := true;
      }
      assert State() == Claimed(Cfg(), old(State()), e.pointerId, inRect, localPoint);
      OnDrag(e, boundsOnScreen, scaleFactor, magnitude, normalized);
    }

    /** A release. The owning pointer's release gives the stick up, hides the
        bounds outside Fixed mode, clears the full-input flag and zeroes the
        output and the handle, raising both events. The identifier is checked,
        `touched` is not. */
    method OnPointerUp(e: PointerEvent)
      requires Valid()
      modifies this`touched, this`boundsActive, this`fullInput, this`input, this`handleAnchor, this`raised
      ensures Valid()
      ensures State() == Released(old(State()), e.pointerId)
      ensures e.pointerId != touchId ==> unchanged(this)
      ensures e.pointerId == touchId ==>
        raised == old(raised) + [Full(false), Drag(Zero)]
    {
      if e.pointerId != touchId {
        return;
      }
      touched := false;
      if stickMode != Fixed {
        boundsActive := false;
      }
      SetFullInput(false);
      input := Zero;
      handleAnchor := Zero;
      raised := raised + [Drag(Zero)];
    }

    /** Mode selection by index: 0, 1 and 2 go through the StickMode setter
        with Fixed, Free and Floating; any other index does nothing. */
    method SetJoystick(stickIndex: int)
      requires Valid()
      modifies this`stickMode, this`boundsAnchor, this`boundsActive, this`raycastTarget
      ensures Valid()
      ensures State() == Selected(Cfg(), old(State()), stickIndex)
      ensures ModeOfIndex(stickIndex).None? ==> unchanged(this)
    {
      if stickIndex == 0 {
        SetStickMode(Fixed);
      } else if stickIndex == 1 {
        SetStickMode(Free);
      } else if stickIndex == 2 {
        SetStickMode(Floating);
      }
    }
  }
}
