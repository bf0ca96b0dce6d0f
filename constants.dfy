/**
 * The constant records of src/provider/constants.ts: the default animation parameters
 * for both animation families and the default visual-feedback tuning.
 */
module Constants {

  /** An easing curve. Only the cubic Bezier form is ever constructed by the library itself. */
  datatype Easing = Bezier(x1: real, y1: real, x2: real, y2: real) | OtherEasing(name: string)

  /** Parameters of a fixed-duration eased animation (durations in milliseconds). */
  datatype TimingConfig = TimingConfig(durationMs: real, easing: Easing)

  /** Parameters of a physical spring animation. */
  datatype SpringConfig = SpringConfig(mass: real, damping: real, stiffness: real)

  /** The `DefaultAnimationConfigs` table: one entry per animation family. */
  datatype AnimationConfigTable = AnimationConfigTable(timing: TimingConfig, spring: SpringConfig)

  /** Visual feedback tuning consumed by the opacity and scale presets. */
  datatype PressableConfig = PressableConfig(activeOpacity: real, minScale: real, baseScale: real)

  /** The opacity the opacity preset starts from when idle. */
  const IdleOpacity: real := 1.0

  /** The default table: 250 ms with the standard ease curve, or a mass 1 / damping 30 / stiffness 200 spring. */
  function DefaultAnimationConfigs(): (t: AnimationConfigTable)
    ensures t.timing.durationMs == 250.0
    ensures t.timing.easing == Bezier(0.25, 0.1, 0.25, 1.0)
    ensures t.spring == SpringConfig(1.0, 30.0, 200.0)
    ensures t.spring.mass > 0.0 && t.spring.damping > 0.0 && t.spring.stiffness > 0.0
  {
    AnimationConfigTable(
      TimingConfig(250.0, Bezier(0.25, 0.1, 0.25, 1.0)),
      SpringConfig(1.0, 30.0, 200.0))
  }

  /**
   * The default feedback tuning. Pressing dims (the active opacity is below the idle
   * opacity) and shrinks (the pressed scale is below the idle scale).
   */
  function DefaultPressableConfig(): (c: PressableConfig)
    ensures c == PressableConfig(0.5, 0.96, 1.0)
    ensures 0.0 < c.activeOpacity < IdleOpacity
    ensures 0.0 < c.minScale < c.baseScale
  {
    PressableConfig(0.5, 0.96, 1.0)
  }
}
