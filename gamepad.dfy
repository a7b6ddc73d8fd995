/** The gamepad bitmask, as the console's input register reports it. */
module Gamepad {

  const ButtonOne: bv8 := 1
  const ButtonTwo: bv8 := 2
  const ButtonLeft: bv8 := 16
  const ButtonRight: bv8 := 32
  const ButtonUp: bv8 := 64
  const ButtonDown: bv8 := 128

  predicate Pressed(pad: bv8, button: bv8) {
    pad & button != 0
  }

  /** A button fires only on the frame it goes from released to pressed. */
  predicate Edge(pad: bv8, previous: bv8, button: bv8) {
    pad & button != 0 && previous & button == 0
  }
}
