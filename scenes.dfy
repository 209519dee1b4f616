/** The two-light scene shared by the simulator, the sampler, the renderer and the sequencer. */
module Scenes {

  /** The colour of one light; the source spells these "red" and "green". */
  datatype LightState = Red | Green

  /** One instant of the intersection: colour and countdown of light A (left) and of light B (right).
      A countdown of 0 means "not counting" or "just expired". */
  datatype Scene = Scene(aState: LightState, aCount: nat, bState: LightState, bCount: nat)

  /** The intersection rule: exactly one of the two lights is red. */
  predicate OneRed(s: Scene) {
    s.aState != s.bState
  }

  /** Neither light is counting. */
  predicate Idle(s: Scene) {
    s.aCount == 0 && s.bCount == 0
  }

  /** The scene every switch produces: A green, B red, both timers stopped. */
  const Switched := Scene(Green, 0, Red, 0)

  /** A countdown `c` after `t` units, floored at zero (the source's `max(0, c - t)`). */
  function Sub(c: nat, t: nat): nat {
    if c > t then c - t else 0
  }

  /** The scene `t` units after `s` when no light switches: both countdowns run down, colours stay. */
  function Countdown(s: Scene, t: nat): Scene {
    Scene(s.aState, Sub(s.aCount, t), s.bState, Sub(s.bCount, t))
  }

  function Min(x: int, y: int): int {
    if x <= y then x else y
  }

  function Max(x: int, y: int): int {
    if x >= y then x else y
  }
}
