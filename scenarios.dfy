/** A client of the stick that relies on the handlers' contracts alone:
    a sequence of presses, drags and releases from two fingers. */
module ControlStickScenarios {
  import opened Vectors
  import opened StickLogic
  import opened ControlStickLegacy

  /** Two fingers press a Fixed stick, the second one then drags and lifts,
      and finally the first one lifts. Only the first press claims the stick;
      everything the second finger does is ignored; the first finger's
      release leaves the stick untouched, with no output and no full input. */
  method FirstClaimWins(settings: Settings, layout: Layout, first: int, second: int)
    returns (owner: int, ownerAfterIntruder: int, touchedAtEnd: bool, inputAtEnd: Vec2, fullInputAtEnd: bool)
    requires layout.boundsSize.x > 0.0 && layout.boundsSize.y > 0.0
    requires first != second
    ensures owner == first && ownerAfterIntruder == first
    ensures !touchedAtEnd && inputAtEnd == Zero && !fullInputAtEnd
  {
    var s := new ControlStick(settings, layout, Fixed, Both, false, Zero, true, false);
    RawInputAtCentre(Zero, Radius(layout), 1.0);
    assert IsPolar(Mask(Both, Zero), 0.0, Zero);

    s.OnPointerDown(PointerEvent(first, Zero), true, Zero, Zero, 1.0, 0.0, Zero);
    owner := s.touchId;

    s.OnPointerDown(PointerEvent(second, Zero), true, Zero, Zero, 1.0, 0.0, Zero);
    s.OnDrag(PointerEvent(second, Zero), Zero, 1.0, 0.0, Zero);
    s.OnPointerUp(PointerEvent(second, Zero));
    ownerAfterIntruder := s.touchId;

    s.OnPointerUp(PointerEvent(first, Zero));
    touchedAtEnd, inputAtEnd, fullInputAtEnd := s.touched, s.input, s.fullInput;
  }
}
