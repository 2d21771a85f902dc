# Legacy on-screen joystick: touch state machine

A Dafny model of class `ControlStick` in `Legacy/ControlStickLegacy.cs`. This is
the legacy on-screen joystick of a Unity mobile-input package.

One finger at a time owns the stick:

- A press (`OnPointerDown`) claims the stick for its pointer id. Outside Fixed
  mode it also moves the stick's bounds under the finger and shows them. It then
  handles the same event as a drag.
- A drag (`OnDrag`) by the owning pointer computes the raw input. This is the
  finger's screen offset from the bounds' centre, in bounds radii. The drag
  masks the raw input to the configured axis and measures the masked vector
  (`ProcessInput`). In Floating mode the bounds follow the finger once the
  length passes `followThreshold`. The drag then sets the full-input flag,
  quantises the output into three tiers (0, 0.45 and 0.90 along the masked
  direction), places the handle and raises the drag event.
- A release (`OnPointerUp`) with the owning id gives the stick up. It hides the
  bounds outside Fixed mode, clears the flag, zeroes output and handle, and
  raises a final zero drag event.
- `SetJoystick` selects the mode by index 0, 1 or 2. Any other index does
  nothing. The `StickMode` setter re-anchors the bounds to their saved position
  in Fixed mode and switches the input area's raycast.

Files:

- `vectors.dfy` (module `Vectors`): Unity's `Vector2` over reals.
  `magnitude` and `normalized` are not computed. A caller supplies them, and
  `IsPolar` states that `v == normalized * magnitude`, that the magnitude is not
  negative and that the normalised vector has length one, or is zero for the
  zero vector. `PolarMagnitude` shows that this pins the magnitude down.
- `stick_logic.dfy` (module `StickLogic`): the stick's state as a datatype, and
  each handler and setter as a function from the old state to the new one.
  The arithmetic pieces (mask, raw input, tier, follow, anchor on press) have
  lemmas of their own. `Run` delivers a sequence of events, and inductive
  lemmas state what holds over every such run: the owner keeps the stick, a
  Fixed stick stays put, the mode's configuration stays consistent, and the
  output stays on a tier.
- `control_stick.dfy` (module `ControlStickLegacy`): class `ControlStick` with
  the source's fields and one method per handler and setter, updating the
  fields in place. The `ensures` of each handler, of the `StickMode` setter and
  of `SetJoystick` say that the new `State()` is the matching `StickLogic`
  transition of the old one. The `StickAxis`, `FullInput` and `RawInput`
  setters give the new state as the old one with the fields they write
  replaced. One ghost sequence records the events raised
  (`OnStickFullInput` and `OnStickDrag`) in the order they are raised.
- `scenarios.dfy` (module `ControlStickScenarios`): a client that drives two
  fingers through the class's handlers using only their contracts.

Quirks of the code that the model keeps:

- At a masked magnitude of exactly `fullInputThreshold` above the dead zone,
  the output takes the 0.90 tier while the full-input flag stays false
  (lines 115-116: `>` for the flag, `<` for the tier; `FullInputBoundary`).
- The `FullInput` setter raises its event on every assignment, whether or not
  the value changes (lines 43-47). So every drag by the owner and every
  release whose id equals `touchId` raises it once. Any other drag or release
  raises nothing.
- The flag, the tiers and the follow all use the length of the *masked*
  input (line 105), not of the raw one.
- `OnPointerUp` compares ids but does not check `touched` (line 123). A second
  release by the last owner resets the stick and raises both events again.
- The pointer-id check at line 89 comes right after `touchId` is set to that
  same id, so it can never fire. The model keeps it as an `assert`.

Unity's projections are parameters of the handlers:

- `ScreenPointToLocalPointInRectangle` gives `inRect` and `localPoint`.
- `WorldToScreenPoint` of the bounds gives `boundsOnScreen`.

`canvas.scaleFactor` is a parameter too. The rectangles' `sizeDelta`, `anchorMax`
and `pivot` are fixed `Layout` values. `GameObject.SetActive` and
`Image.raycastTarget` are the boolean fields `boundsActive` and `raycastTarget`.

## Model

| member | source | states |
|---|---|---|
| `StickLogic.ModeOfIndex` | Legacy/ControlStickLegacy.cs:132-145 | an index selects a mode exactly when it is 0, 1 or 2, and the selected mode's index is that index |
| `StickLogic.ModeIndexRoundTrip` | Legacy/ControlStickLegacy.cs:132-145 | every mode is selected by its own index (inverse of ModeOfIndex) |
| `StickLogic.Mask` | Legacy/ControlStickLegacy.cs:56 | axis X zeroes y and keeps x, axis Y zeroes x and keeps y, Both keeps both; masking never lengthens the vector |
| `StickLogic.MaskIdempotent` | Legacy/ControlStickLegacy.cs:56 | masking an already masked input changes nothing |
| `StickLogic.RawInputOf` | Legacy/ControlStickLegacy.cs:103-104 | the raw input times the canvas-scaled radius is the finger's screen offset from the bounds' centre |
| `StickLogic.RawInputAtCentre` | Legacy/ControlStickLegacy.cs:104 | a finger on the bounds' centre gives zero raw input |
| `StickLogic.RawInputAfterShift` | Legacy/ControlStickLegacy.cs:104 | moving the bounds' screen centre by shift*radius*scaleFactor lowers the raw input by exactly shift |
| `StickLogic.TierFactor` | Legacy/ControlStickLegacy.cs:116 | the tier is 0 exactly when m <= moveThreshold, 0.45 exactly when moveThreshold < m < fullInputThreshold, 0.90 exactly when m > moveThreshold and m >= fullInputThreshold |
| `StickLogic.Quantise` | Legacy/ControlStickLegacy.cs:116 | the output is zero when m <= moveThreshold, 0.45*normalized when moveThreshold < m < fullInputThreshold, and 0.90*normalized when m > moveThreshold and m >= fullInputThreshold |
| `StickLogic.DefaultTiers` | Legacy/ControlStickLegacy.cs:15-18 | with the inspector defaults (0.17 and 0.75) a magnitude up to 0.17 gives tier 0, one below 0.75 gives 0.45 and any longer one 0.90 |
| `StickLogic.QuantiseMagnitude` | Legacy/ControlStickLegacy.cs:105-116 | the output has exactly the tier's length and points along the masked input (it is the masked input scaled by tier/m) |
| `StickLogic.TierMonotone` | Legacy/ControlStickLegacy.cs:116 | a longer drag never gives a lower tier |
| `StickLogic.DeadZoneBoundary` | Legacy/ControlStickLegacy.cs:116 | a magnitude of exactly moveThreshold still gives zero output |
| `StickLogic.FullInputBoundary` | Legacy/ControlStickLegacy.cs:115-116 | a magnitude of exactly fullInputThreshold, above the dead zone, already gives the 0.90 tier |
| `StickLogic.Followed` | Legacy/ControlStickLegacy.cs:110-114 | in Floating mode with m > followThreshold the bounds move by exactly normalized*(m - followThreshold)*radius; in every other case they stay where they are |
| `StickLogic.FollowedFingerAtThreshold` | Legacy/ControlStickLegacy.cs:103-113 | after following, a drag from the same finger position against the moved bounds has a masked input of length followThreshold along the drag's direction, on every axis |
| `StickLogic.AnchorOnDown` | Legacy/ControlStickLegacy.cs:92-93 | a press outside the input area puts the bounds at the origin; otherwise bounds + anchorMax*size == localPoint + pivot*size |
| `StickLogic.Radius` | Legacy/ControlStickLegacy.cs:103 | the radius is half the bounds' size |
| `StickLogic.WithMode` | Legacy/ControlStickLegacy.cs:22-36 | the mode is stored and configured: Fixed puts the bounds at the fixed position, shows them and turns the raycast off; other modes turn it on and leave the bounds alone; ownership, axis, raw input, output, flag and handle stay |
| `StickLogic.Selected` | Legacy/ControlStickLegacy.cs:132-145 | an index without a mode leaves the state as it is; 0, 1 and 2 act as the StickMode setter with that index's mode |
| `StickLogic.Processed` | Legacy/ControlStickLegacy.cs:108-119 | fullInput == (m > fullInputThreshold), the output is the tier along the direction, the handle is at output*stickRange*radius, the bounds follow as Followed says; ownership, mode, axis, visibility and raycast stay; Fixed stays anchored |
| `StickLogic.Dragged` | Legacy/ControlStickLegacy.cs:99-106 | a drag by another pointer, or while untouched, changes nothing; the owner's drag sets the raw input and has Processed's effects; ownership and configuration stay |
| `StickLogic.PressAnchor` | Legacy/ControlStickLegacy.cs:90-93 | outside Fixed mode a press puts the bounds at AnchorOnDown of its projection; in Fixed mode they stay where they are |
| `StickLogic.Claimed` | Legacy/ControlStickLegacy.cs:86-95 | the press's pointer owns the stick; the bounds are at PressAnchor and visible outside Fixed mode (Fixed keeps their visibility); raw input, output, flag, handle, mode, axis and raycast stay; Fixed stays anchored |
| `StickLogic.Pressed` | Legacy/ControlStickLegacy.cs:84-97 | a press while touched changes nothing; a claiming press gives the stick to its pointer, makes the bounds visible outside Fixed mode, and then acts as the owner's drag from the re-anchored bounds: raw input from RawInputOf, flag == (m > fullInputThreshold), output Quantise, handle at output*stickRange*radius, bounds at Followed of PressAnchor; mode, axis and raycast stay |
| `StickLogic.Released` | Legacy/ControlStickLegacy.cs:121-130 | a release by another id changes nothing; the owner's release clears touched and fullInput, zeroes output and handle, and hides the bounds unless Fixed; raw input, owner id, mode, axis, anchor and raycast stay |
| `StickLogic.ReleaseIdempotent` | Legacy/ControlStickLegacy.cs:121-130 | since touched is not consulted, releasing twice with the same id is the same as releasing once |
| `StickLogic.RunSnoc` | Legacy/ControlStickLegacy.cs:84-145 | delivering one more event is applying it to the state the run left |
| `StickLogic.OwnerKeepsStick` | Legacy/ControlStickLegacy.cs:84-130 | first claim wins: over any run without a release by the owner, the stick stays touched by the same pointer |
| `StickLogic.UntouchedIgnoresDrags` | Legacy/ControlStickLegacy.cs:101 | an untouched stick is unchanged by any sequence of drags |
| `StickLogic.AnchoredThroughout` | Legacy/ControlStickLegacy.cs:22-36 | over any run, whenever the stick is in Fixed mode its bounds are at the fixed position |
| `StickLogic.ConfiguredThroughout` | Legacy/ControlStickLegacy.cs:22-36 | once configured by the StickMode setter, visibility and raycast stay consistent with the mode over any run |
| `StickLogic.QuantiseTiered` | Legacy/ControlStickLegacy.cs:116 | Quantise along a unit or zero direction has squared length 0, 0.45^2 or 0.90^2 |
| `StickLogic.ApplyKeepsTiered` | Legacy/ControlStickLegacy.cs:84-145 | no single event takes the output off the three tiers |
| `StickLogic.TieredThroughout` | Legacy/ControlStickLegacy.cs:105-127 | over any run, the output's length stays 0, 0.45 or 0.90 |
| `StickLogic.ReleaseEndsAtRest` | Legacy/ControlStickLegacy.cs:121-130 | whatever came before, the owner's release leaves the stick untouched with zero output and handle and no full input |
| `Vectors.PolarMagnitude` | Legacy/ControlStickLegacy.cs:105 | the supplied magnitude squared is the vector's squared length |
| `ControlStickLegacy.ControlStick.constructor` | Legacy/ControlStickLegacy.cs:72-82 | Start/FormatControlStick: the bounds' current position becomes the fixed position, the handle is centred, the stick is untouched with zero raw input and output and no events raised |
| `ControlStickLegacy.ControlStick.SetStickMode` | Legacy/ControlStickLegacy.cs:22-36 | the new state is WithMode of the old one |
| `ControlStickLegacy.ControlStick.SetStickAxis` | Legacy/ControlStickLegacy.cs:37-38 | the axis is stored and nothing else changes; Valid is kept |
| `ControlStickLegacy.ControlStick.SetFullInput` | Legacy/ControlStickLegacy.cs:39-48 | the flag is stored and the event is raised with it on every assignment, whether or not it changed |
| `ControlStickLegacy.ControlStick.SetRawInput` | Legacy/ControlStickLegacy.cs:49-58 | rawInput is the value unmasked; input is its masked form; nothing else changes |
| `ControlStickLegacy.ControlStick.ProcessInput` | Legacy/ControlStickLegacy.cs:108-119 | the new state is Processed of the old one; the full-input event and then the drag event are raised with the new values |
| `ControlStickLegacy.ControlStick.OnDrag` | Legacy/ControlStickLegacy.cs:99-106 | the new state is Dragged of the old one; only the owner's drag raises the events (the flag, then the output), and any other drag changes no field |
| `ControlStickLegacy.ControlStick.OnPointerDown` | Legacy/ControlStickLegacy.cs:84-97 | the new state is Pressed of the old one; a press while touched changes no field, a claiming press raises the flag and then the output |
| `ControlStickLegacy.ControlStick.OnPointerUp` | Legacy/ControlStickLegacy.cs:121-130 | the new state is Released of the old one; the owner's release raises false and then a zero drag, any other changes no field |
| `ControlStickLegacy.ControlStick.SetJoystick` | Legacy/ControlStickLegacy.cs:132-145 | the new state is Selected of the old one; an index without a mode changes no field |
| `ControlStickScenarios.FirstClaimWins` | Legacy/ControlStickLegacy.cs:84-130 | the first press owns the stick; a second finger's press, drag and release leave the owner in place; the owner's release leaves it untouched with zero input and no full input |

`Valid` (the class's) says the bounds have a positive size and sit at the fixed
position in Fixed mode; every handler keeps it. The run lemmas take events
whose direction is a unit vector or zero, as `normalized` always is, and whose
canvas scale is not zero; they hold for any supplied magnitude.

## Left out

- The touch pad (`ControlPad`) and the tap button (`ControlButton`) are not part of this model.
- Floating-point behaviour: vectors are over reals, and `magnitude` and `normalized` are supplied by the caller under `IsPolar`. Unity's cut-off that normalises vectors shorter than 1e-5 to zero is not modelled.
- Division by zero: a bounds size or canvas scale factor of zero (Infinity or NaN in the source) is excluded. `Valid` requires a positive bounds size, and the drag handlers require a positive scale factor when they compute a raw input.
- The camera choice at line 102 and Unity's projection calls: their results are handler parameters. The model does not relate `boundsOnScreen` to `boundsAnchor`, because that goes through Unity's world transform.
- The event subscribers: what `OnStickDrag` and `OnStickFullInput` receive is recorded in the ghost log `raised`, and nothing else happens.
- The pivot and anchor assignments in `FormatControlStick` (lines 76 and 78-80) and the `GetComponentInParent<Canvas>` lookup: the layout values they set are given as the fixed `Layout`.
- Inspector attributes and the `StickMode`/`StickAxis` getters: they have no behaviour of their own.
- The run lemmas of `StickLogic`: an event carries a magnitude and a direction, but `Run` does not tie them to the state's raw input, since that goes through the projections. The class's handlers do require `IsPolar` of the masked raw input.
