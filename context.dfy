/**
 * The pressables context of src/provider/context.ts: the animation family, the
 * configuration whose shape that family decides, and optional global handlers.
 */
module Context {
  import opened Wrappers
  import opened Constants

  /** `'timing' | 'spring'`: exactly two animation families. */
  datatype AnimationType = Timing | Spring

  /** A reanimated configuration, either for `withTiming` or for `withSpring`. */
  datatype AnimationConfig = TimingCfg(timing: TimingConfig) | SpringCfg(spring: SpringConfig)

  /** Which of the optional global handlers are present. */
  datatype GlobalHandlers = GlobalHandlers(onPressIn: bool, onPressOut: bool, onPress: bool)

  /** The value carried by `PressablesContext`. */
  datatype ContextValue = ContextValue(
    animationType: AnimationType,
    config: AnimationConfig,
    globalHandlers: Option<GlobalHandlers>)

  /** The configuration's shape is the one the animation family calls for. */
  predicate ShapeMatches(t: AnimationType, c: AnimationConfig) {
    c.TimingCfg? <==> t == Timing
  }

  /** Indexing the defaults table by animation family (`DefaultConfigs[animationType]`). */
  function DefaultConfigFor(t: AnimationType): (c: AnimationConfig)
    ensures ShapeMatches(t, c)
    ensures t == Timing ==> c == TimingCfg(DefaultAnimationConfigs().timing)
    ensures t == Spring ==> c == SpringCfg(DefaultAnimationConfigs().spring)
  {
    match t
    case Timing => TimingCfg(DefaultAnimationConfigs().timing)
    case Spring => SpringCfg(DefaultAnimationConfigs().spring)
  }

  /** What a component reads with no provider above it. */
  function DefaultContextValue(): (v: ContextValue)
    ensures v.animationType == Timing
    ensures v.config == TimingCfg(TimingConfig(250.0, Bezier(0.25, 0.1, 0.25, 1.0)))
    ensures v.globalHandlers.None?
    ensures ShapeMatches(v.animationType, v.config)
  {
    ContextValue(Timing, DefaultConfigFor(Timing), None)
  }
}
