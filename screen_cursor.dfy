/**
 * The screen cursor record kept by the ImGui window: the last cursor
 * position, the active modifier set and one pressed flag per cursor type.
 *
 * The cursor type and modifier enumerations are declared in Project.h, which
 * is not part of this model; their bounds (`kCursorTypeFirstEnum`,
 * `kCursorTypeMaxEnum`, `kCursorModifierTypeMaxEnum`) are therefore given to
 * the constructor and kept as constant fields.
 */
module ScreenCursors {

  /** `glm::clamp(value, lo, hi)`: `value` forced into `[lo, hi]`. */
  function Clamp(value: int, lo: int, hi: int): (r: int)
    requires lo <= hi
    ensures lo <= r <= hi
    ensures lo <= value <= hi ==> r == value
    ensures value < lo ==> r == lo
    ensures hi < value ==> r == hi
  {
    if value < lo then lo else if hi < value then hi else value
  }

  class ScreenCursor {
    /** `kCursorTypeFirstEnum`, the first cursor type. */
    const cursorTypeFirst: int
    /** `kCursorTypeMaxEnum`, one past the last cursor type and the size of the pressed array. */
    const cursorTypeMax: int
    var modifiers: int
    var pressed: array<bool>
    var x: int
    var y: int

    ghost predicate Valid()
      reads this
    {
      0 <= cursorTypeFirst < cursorTypeMax && pressed.Length == cursorTypeMax
    }

    /** The slot a cursor type is recorded in: the type clamped to the enumeration's range. */
    function Slot(cursorType: int): (r: int)
      reads this
      requires Valid()
      ensures 0 <= cursorTypeFirst <= r < pressed.Length
      ensures cursorTypeFirst <= cursorType < cursorTypeMax ==> r == cursorType
      ensures cursorType < cursorTypeFirst ==> r == cursorTypeFirst
      ensures cursorTypeMax <= cursorType ==> r == cursorTypeMax - 1
    {
      Clamp(cursorType, cursorTypeFirst, cursorTypeMax - 1)
    }

    /** A fresh cursor sits at the origin with every flag cleared and the out-of-range modifier value. */
    constructor(typeFirst: int, typeMax: int, modifierMax: int)
      requires 0 <= typeFirst < typeMax
      ensures Valid()
      ensures cursorTypeFirst == typeFirst && cursorTypeMax == typeMax
      ensures fresh(pressed)
      ensures modifiers == modifierMax && x == 0 && y == 0
      ensures forall i :: 0 <= i < pressed.Length ==> !pressed[i]
    {
      cursorTypeFirst := typeFirst;
      cursorTypeMax := typeMax;
      modifiers := modifierMax;
      x := 0;
      y := 0;
      pressed := new bool[typeMax](_ => false);
    }

    /** Records a position and a modifier set; the pressed flags are left as they were. */
    method Assign(newX: int, newY: int, newModifiers: int)
      requires Valid()
      modifies this
      ensures Valid()
      ensures x == newX && y == newY && modifiers == newModifiers
      ensures pressed == old(pressed) && pressed[..] == old(pressed[..])
    {
      x := newX;
      y := newY;
      modifiers := newModifiers;
    }

    /**
     * Records a position and a modifier set, then stores `value` in the slot of
     * `cursorType`; every other slot is left as it was.
     */
    method AssignPressed(newX: int, newY: int, newModifiers: int, cursorType: int, value: bool)
      requires Valid()
      modifies this, pressed
      ensures Valid()
      ensures x == newX && y == newY && modifiers == newModifiers
      ensures pressed == old(pressed)
      ensures pressed[..] == old(pressed[..])[Slot(cursorType) := value]
    {
      Assign(newX, newY, newModifiers);
      pressed[Slot(cursorType)] := value;
    }
  }
}
