/**
 * `PressableGlass` of src/pressables/custom/glass.tsx: without a glass package it falls
 * back to the scale pressable; otherwise it wraps its children in the glass view with
 * a props record normalised for both glass packages, under a pressable whose style
 * dims and slightly shrinks while pressed.
 */
module Glass {
  import opened Wrappers
  import opened LiquidGlass

  datatype GlassEffectStyle = Clear | Regular
  datatype GlassColorScheme = Light | Dark | System

  function EffectName(s: GlassEffectStyle): string {
    match s
    case Clear => "clear"
    case Regular => "regular"
  }

  function SchemeName(s: GlassColorScheme): string {
    match s
    case Light => "light"
    case Dark => "dark"
    case System => "system"
  }

  /** The props of `PressableGlass` that it reads; `None` is an omitted prop. */
  datatype GlassProps = GlassProps(
    glassEffectStyle: Option<GlassEffectStyle>,
    interactive: Option<bool>,
    tintColor: Option<string>,
    colorScheme: Option<GlassColorScheme>)

  /** The props handed on untouched (`style` and the rest), opaque here. */
  type PassedProps = nat

  /** A value stored in the normalised glass props. */
  datatype PropValue = Absent | Flag(b: bool) | Text(s: string) | FlagList(items: seq<bool>)

  /** JavaScript truthiness of a prop value; any list is truthy. */
  predicate Truthy(v: PropValue) {
    match v
    case Absent => false
    case Flag(b) => b
    case Text(s) => s != ""
    case FlagList(_) => true
  }

  /** Reading a key of the props record; a missing key reads as `undefined`. */
  function Get(props: map<string, PropValue>, key: string): PropValue {
    if key in props then props[key] else Absent
  }

  /**
   * The keys the normalised glass props end up with: the style and both expo names
   * always, the callstack `interactive` name only when interaction is off, and the
   * tint and colour scheme only when given (the tint only when non-empty).
   */
  function NormalizedKeys(p: GlassProps): set<string> {
    {"style", "glassEffectStyle", "isInteractive"}
    + (if !p.interactive.GetOr(false) then {"interactive"} else {})
    + (if p.tintColor.Some? && p.tintColor.value != "" then {"tintColor"} else {})
    + (if p.colorScheme.Some? then {"colorScheme"} else {})
  }

  /**
   * The props record for the glass view, built by successive conditional writes. The
   * expo names are always written, so the callstack fallback for the effect is dead
   * and the callstack `interactive` key appears only when interaction is off.
   */
  method NormalizeGlassProps(p: GlassProps, isAvailable: bool) returns (glassProps: map<string, PropValue>)
    ensures glassProps.Keys == NormalizedKeys(p)
    ensures glassProps["style"] == FlagList([!isAvailable])
    ensures glassProps["glassEffectStyle"] == Text(EffectName(p.glassEffectStyle.GetOr(Regular)))
    ensures "effect" !in glassProps
    ensures glassProps["isInteractive"] == Flag(p.interactive.GetOr(false))
    ensures "interactive" in glassProps ==> glassProps["interactive"] == Flag(false)
    ensures "tintColor" in glassProps ==> glassProps["tintColor"] == Text(p.tintColor.value)
    ensures "colorScheme" in glassProps ==> glassProps["colorScheme"] == Text(SchemeName(p.colorScheme.value))
  {
    // destructuring defaults
    var glassEffectStyle := Text(EffectName(p.glassEffectStyle.GetOr(Regular)));
    var interactive := Flag(p.interactive.GetOr(false));
    var tintColor := if p.tintColor.Some? then Text(p.tintColor.value) else Absent;
    var colorScheme := if p.colorScheme.Some? then Text(SchemeName(p.colorScheme.value)) else Absent;

    glassProps := map["style" := FlagList([!isAvailable])];

    // expo-glass-effect names
    if Truthy(glassEffectStyle) {
      glassProps := glassProps["glassEffectStyle" := glassEffectStyle];
    }
    if interactive != Absent {
      glassProps := glassProps["isInteractive" := interactive];
    }
    if Truthy(tintColor) {
      glassProps := glassProps["tintColor" := tintColor];
    }

    // @callstack/liquid-glass names
    if Truthy(glassEffectStyle) && !Truthy(Get(glassProps, "glassEffectStyle")) {
      glassProps := glassProps["effect" := glassEffectStyle];
    }
    if interactive != Absent && !Truthy(Get(glassProps, "isInteractive")) {
      glassProps := glassProps["interactive" := interactive];
    }
    if Truthy(colorScheme) {
      glassProps := glassProps["colorScheme" := colorScheme];
    }
  }

  /** What `PressableGlass` renders. */
  datatype Rendered =
    | ScaleFallback(passed: PassedProps)
    | GlassPressable(passed: PassedProps, glassView: Binding, glassProps: map<string, PropValue>)

  /**
   * One render: without glass support, the scale pressable with the same passed props
   * and one warning; with it, the glass pressable around the glass view.
   */
  method PressableGlass(m: GlassModule, platformAnswer: bool, p: GlassProps, passed: PassedProps)
    returns (out: Rendered, warnings: nat)
    ensures !HasLiquidGlassSupport(m) ==> out == ScaleFallback(passed) && warnings == 1
    ensures HasLiquidGlassSupport(m) ==>
              && warnings == 0
              && out.GlassPressable? && out.passed == passed && out.glassView == m.glassView
              && out.glassProps.Keys == NormalizedKeys(p)
              && out.glassProps["style"] == FlagList([!IsGlassEffectAvailable(m, platformAnswer)])
              && out.glassProps["glassEffectStyle"] == Text(EffectName(p.glassEffectStyle.GetOr(Regular)))
              && out.glassProps["isInteractive"] == Flag(p.interactive.GetOr(false))
              && ("interactive" in out.glassProps ==> out.glassProps["interactive"] == Flag(false))
              && ("tintColor" in out.glassProps ==> out.glassProps["tintColor"] == Text(p.tintColor.value))
              && ("colorScheme" in out.glassProps ==> out.glassProps["colorScheme"] == Text(SchemeName(p.colorScheme.value)))
              && "effect" !in out.glassProps
  {
    if !HasLiquidGlassSupport(m) {
      warnings := 1;
      out := ScaleFallback(passed);
      return;
    }
    warnings := 0;
    var isAvailable := IsGlassEffectAvailable(m, platformAnswer);
    var glassProps := NormalizeGlassProps(p, isAvailable);
    out := GlassPressable(passed, m.glassView, glassProps);
  }

  /** The animated style of the glass pressable. */
  datatype GlassStyle = GlassStyle(opacity: real, scale: real)

  /**
   * Opacity 0.8 while pressed and 1 otherwise; the scale shrinks linearly with the
   * progress, staying within [0.98, 1] while the progress stays within [0, 1].
   */
  function GlassAnimatedStyle(progress: real, isPressed: bool): (s: GlassStyle)
    ensures s.opacity < 1.0 <==> isPressed
    ensures isPressed ==> s.opacity == 0.8
    ensures !isPressed ==> s.opacity == 1.0
    ensures s.scale == 1.0 - 0.02 * progress
    ensures 0.0 <= progress <= 1.0 ==> 0.98 <= s.scale <= 1.0
    ensures progress == 0.0 ==> s.scale == 1.0
    ensures progress == 1.0 ==> s.scale == 0.98
  {
    GlassStyle(if isPressed then 0.8 else 1.0, 1.0 - progress * 0.02)
  }
}
