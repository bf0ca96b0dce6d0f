/**
 * src/integrations/liquid-glass.ts: at load time the module tries to `require` the
 * expo glass package, then the callstack one, and keeps the glass view, the glass
 * container and an availability function from whichever loaded first. The outcome of
 * each `require` is an input here.
 */
module LiquidGlass {

  /** What a `require` does: hand back the package's exports, or throw. */
  datatype Require<E> = Loads(exports: E) | Throws

  /** A binding the module keeps: still `null`, an `undefined` export, or a component. */
  datatype Binding = Null | Undefined | Component(name: string)

  /** The exports of `expo-glass-effect` that are read; whether `isLiquidGlassAvailable` is a function. */
  datatype ExpoExports = ExpoExports(glassView: Binding, glassContainer: Binding, exportsAvailability: bool)

  /** The exports of `@callstack/liquid-glass` that are read; `isLiquidGlassSupported` is a constant. */
  datatype CallstackExports = CallstackExports(liquidGlassView: Binding, liquidGlassContainerView: Binding, isLiquidGlassSupported: bool)

  /**
   * The availability function kept: none (`null`, or an expo export that is not a
   * function), the expo function that asks the platform, or the callstack closure
   * that returns the constant captured at load time.
   */
  datatype Availability = NoFunction | AskPlatform | Constant(supported: bool)

  /** The three module-level bindings once loading has finished. */
  datatype GlassModule = GlassModule(glassView: Binding, glassContainer: Binding, availability: Availability)

  /**
   * `hasLiquidGlassSupport`: a glass view binding other than `null` was kept. The test
   * is `!== null`, so a package that loaded but exported no view (`undefined`) counts
   * as support too.
   */
  predicate HasLiquidGlassSupport(m: GlassModule): (supported: bool)
    ensures m.glassView == Null ==> !supported
    ensures m.glassView.Component? ==> supported
    ensures m.glassView == Undefined ==> supported
  {
    m.glassView != Null
  }

  /**
   * `isGlassEffectAvailable`, given what the platform would answer if asked. False
   * without support or without an availability function; under callstack it is the
   * captured constant, so the platform's answer does not matter.
   */
  function IsGlassEffectAvailable(m: GlassModule, platformAnswer: bool): (available: bool)
    ensures available ==> HasLiquidGlassSupport(m)
    ensures m.availability.NoFunction? ==> !available
    ensures m.availability.Constant? ==> available == (HasLiquidGlassSupport(m) && m.availability.supported)
    ensures m.availability.AskPlatform? ==> available == (HasLiquidGlassSupport(m) && platformAnswer)
  {
    if !HasLiquidGlassSupport(m) then false
    else match m.availability
      case NoFunction => false
      case AskPlatform => platformAnswer
      case Constant(supported) => supported
  }

  /** Under callstack repeated queries agree, whatever the platform says in between. */
  lemma CallstackAvailabilityIsStable(m: GlassModule, answer1: bool, answer2: bool)
    requires m.availability.Constant?
    ensures IsGlassEffectAvailable(m, answer1) == IsGlassEffectAvailable(m, answer2)
  {
  }

  /** The module's `let` bindings, filled in by the load-time initialisation. */
  class GlassIntegration {
    var glassView: Binding
    var glassContainer: Binding
    var availability: Availability

    function State(): GlassModule
      reads this
    {
      GlassModule(glassView, glassContainer, availability)
    }

    /**
     * Load time: start from `null`; if expo loads take its three exports and never
     * try callstack; otherwise, if callstack loads, take its two views and a closure
     * over its support constant; otherwise keep `null`.
     */
    constructor Load(expo: Require<ExpoExports>, callstack: Require<CallstackExports>)
      ensures expo.Loads? ==>
                && glassView == expo.exports.glassView
                && glassContainer == expo.exports.glassContainer
                && availability == (if expo.exports.exportsAvailability then AskPlatform else NoFunction)
      ensures expo.Throws? && callstack.Loads? ==>
                && glassView == callstack.exports.liquidGlassView
                && glassContainer == callstack.exports.liquidGlassContainerView
                && availability == Constant(callstack.exports.isLiquidGlassSupported)
      ensures expo.Throws? && callstack.Throws? ==>
                && State() == GlassModule(Null, Null, NoFunction)
                && !HasLiquidGlassSupport(State())
    {
      glassView := Null;
      glassContainer := Null;
      availability := NoFunction;
      match expo
      case Loads(expoGlass) =>
        glassView := expoGlass.glassView;
        glassContainer := expoGlass.glassContainer;
        availability := if expoGlass.exportsAvailability then AskPlatform else NoFunction;
      case Throws =>
        match callstack
        case Loads(callstackGlass) =>
          glassView := callstackGlass.liquidGlassView;
          glassContainer := callstackGlass.liquidGlassContainerView;
          var isSupported := callstackGlass.isLiquidGlassSupported;
          availability := Constant(isSupported);
        case Throws =>
    }
  }
}
