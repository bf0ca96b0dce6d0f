# pressto, modelled in Dafny

pressto gives touchable surfaces animated press feedback. A tap recogniser drives
one `active` flag, and an animated progress value follows it from 0 to 1 and back.
A user-supplied style function maps that progress to a style. This project models the
library's decision logic and proves properties of it:

- **Press machine** (`press.dfy`, module `Press`). `BasePressable` is a class with an
  `active` field and an effect trace: every write of the flag and every handler call,
  in program order. It has one method per recogniser callback:
  - touches-down sets the flag, then calls `onPressIn`;
  - touches-up calls `onPress`;
  - finalize clears the flag, then calls `onPressOut`.

  Each method is tied to a pure `Step` function. The lemmas about `Replay` (a fold of
  `Step` over a callback sequence) state the machine's promises:
  - the flag always equals the last value written;
  - finalize always leaves the flag false, however the tap ended;
  - a handler runs once per forwarding event when supplied, and never when absent;
  - a full tap produces `[onPressIn, onPress, onPressOut]`.

  The same file models the progress target (`active ? 1 : 0`, 250 ms, bezier(0.25, 0.1,
  0.25, 1)) and the style fallback and override order.
- **Scroll flag** (`scroll.dfy`, module `Scroll`). Every scroll view rendered by
  `renderScrollComponent` shares one `ScrollingFlag` object. The wrapped drag handlers
  write the flag first, then forward to the caller's handler and return its result. The
  handler is given the flag value it would observe, so the write-then-forward order is
  visible. The internal-scrollable context is a read over the render path.
- **Configuration** (`constants.dfy`, `context.dfy`, `provider.dfy`). This covers:
  - the defaults tables;
  - the two-variant `AnimationType` and the config shape each variant calls for;
  - the default context value;
  - the provider's defaulting of `animationType` and `config`;
  - the nearest-provider-else-default read.

  React context is modelled by passing the context explicitly. A generic read over the
  ancestor list (`scope.dfy`, module `Scope`) returns the innermost provider's value.
- **Shared-value unwrapping** (`shared_value.dfy`). A small JavaScript value type. An
  object that has a `value` property is read through its `get()`. Every other value is
  returned unchanged, including `null` and functions.
- **Liquid glass** (`liquid_glass.dfy`, `glass.tsx` as `glass.dfy`). Each `require`
  outcome is an input.
  - The class constructor `GlassIntegration.Load` replays the load-time initialisation
    of the three module bindings.
  - `HasLiquidGlassSupport` and `IsGlassEffectAvailable` are predicates over the
    resulting bindings.
  - `PressableGlass` chooses the scale fallback or the glass view.
  - `NormalizeGlassProps` builds the glass props by the source's successive
    conditional writes.
  - Its contract proves that the callstack `effect` key is never written. It also
    proves that the callstack `interactive` key appears only when interaction is off,
    and then holds `false`.
- **Lint rule** (`worklet_rule.dfy`). The `CallExpression` visitor of
  `require-worklet-directive` runs over an AST datatype. It returns the one report or
  none. Its contract gives the exact condition under which it reports.

The model follows the code as written, and the code behaves as follows:
- `base.tsx` has no toggled, selected, group, disabled, hover or scroll-gated press
  logic.
- Only finalize clears `active`.
- `onTouchesUp` calls `onPress` without checking how the tap is resolved.
- No global handler from the context is ever called.
- `base.tsx` hard-codes the press animation's duration (250 ms) and easing. It never
  reads `PressablesContext`, so a provider, even a spring one, does not change the press
  animation. That the hard-coded values equal the timing defaults is a coincidence of
  the constants.
- A nested `PressablesConfig` does not inherit its parent's `animationType` or
  `config`. A provider given no props yields the built-in defaults wherever it sits.
- `index.tsx` and `context.ts` import the defaults table as `DefaultConfigs`, while
  `constants.ts` exports it as `DefaultAnimationConfigs`. They are treated as one table.
- `base.tsx` calls `animatedStyle(progress)` with a single argument, while `hoc.tsx` and
  `glass.tsx` declare style functions of `(progress, options)`. The glass style function
  is modelled as the function of progress and `isPressed` that `glass.tsx` writes.

## Model

| member | source | states |
|---|---|---|
| Scope.Read | src/pressables/render-scroll.tsx:10-12 | a context read returns the default or the value of some provider on the path; with no provider it is the default, and with any provider it is a provider's value |
| Scope.ReadNearest | src/provider/index.tsx:28-30 | the innermost provider on the path decides what a descendant reads |
| Scope.ReadIgnoresNonProviders | src/provider/index.tsx:28-30 | components that provide nothing, placed between the provider and the reader, never change the read |
| Constants.DefaultAnimationConfigs | src/provider/constants.ts:55-62 | timing default is 250 ms with bezier(0.25, 0.1, 0.25, 1); spring default is mass 1, damping 30, stiffness 200, all positive |
| Constants.DefaultPressableConfig | src/provider/constants.ts:67-71 | defaults are activeOpacity 0.5, minScale 0.96, baseScale 1; pressing dims below the idle opacity 1 and shrinks below the base scale |
| Context.DefaultConfigFor | src/provider/index.tsx:24 | indexing the defaults table by animation type yields a config of that type's shape, the table's entry for it |
| Context.DefaultContextValue | src/provider/context.ts:20-25 | with no provider the type is timing, the config is the timing default table entry, there are no global handlers, and the shape matches |
| Provider.ProviderValue | src/provider/index.tsx:16-26 | animationType defaults to timing; a null or undefined config becomes the table entry for the chosen type; a supplied config is used unchanged; no global handlers pass through; well-typed props give a well-shaped value |
| Provider.UsePressablesConfig | src/provider/hooks.ts:4-6 | below no provider the read is the default context value; when every provider on the path is well-typed the read is well-shaped; it never carries global handlers |
| Provider.NearestProviderWins | src/provider/index.tsx:28-30 | descendants read the value computed by the nearest enclosing PressablesConfig |
| Provider.EmptyProviderIsDefault | src/provider/index.tsx:18-24 | a PressablesConfig given no props yields exactly the no-provider default wherever it sits, even below another provider |
| Press.StepConsistent | src/pressables/base.tsx:42-52 | each recogniser callback leaves the flag equal to the last value written to it |
| Press.ReplayConsistent | src/pressables/base.tsx:31 | from the initial false, any sequence of callbacks keeps the flag equal to its last write |
| Press.ReplayActive | src/pressables/base.tsx:42-52 | after any callback sequence the flag is what the last touches-down (true) or finalize (false) wrote; touches-up never changes it |
| Press.EndsInactive | src/pressables/base.tsx:40-52 | a sequence ending in finalize, whatever its outcome (including exceeding the 4000 ms maximum), leaves the flag false |
| Press.InvocationCount | src/pressables/base.tsx:42-52 | each handler is called exactly once per event that forwards to it when supplied, and never otherwise |
| Press.AbsentHandlerNeverInvoked | src/pressables/base.tsx:44-51 | a null or undefined handler never appears in the trace |
| Press.TapSequence | src/pressables/base.tsx:42-52 | down, up, finalize writes true, calls onPressIn, onPress, writes false, calls onPressOut; the flag ends false |
| Press.ProgressAnimationFor | src/pressables/base.tsx:33-38 | the progress target is 1 exactly when active and 0 exactly when not, with the hard-coded 250 ms bezier(0.25, 0.1, 0.25, 1) timing, whatever the provider says |
| Press.ComputedStyle | src/pressables/base.tsx:54-56 | with no animatedStyle the computed style is empty; otherwise it is the style function applied to the progress |
| Press.ViewStyle | src/pressables/base.tsx:60 | the view's style list flattens so that every computed property overrides the static one and the others keep the static value |
| Press.BasePressable.constructor | src/pressables/base.tsx:31 | a mounted pressable is inactive with an empty trace |
| Press.BasePressable.OnTouchesDown | src/pressables/base.tsx:42-45 | sets active, then calls onPressIn once if supplied; matches Step and keeps the flag consistent |
| Press.BasePressable.OnTouchesUp | src/pressables/base.tsx:46-48 | calls onPress if supplied and leaves active unchanged |
| Press.BasePressable.OnFinalize | src/pressables/base.tsx:49-52 | for every outcome, clears active, then calls onPressOut if supplied |
| Press.BasePressable.Progress | src/pressables/base.tsx:33-38 | the instance's progress animation heads for 1 exactly while it is active |
| Scroll.ScrollingFlag.constructor | src/pressables/render-scroll.tsx:6 | the shared flag starts false |
| Scroll.FlagIsLastWrite | src/pressables/render-scroll.tsx:31-38 | after any drag phases the flag is true exactly when the latest one was a begin |
| Scroll.EndDragClearsOpenDrags | src/pressables/render-scroll.tsx:35-36 | the flag does not count open drags: one end-drag clears it even after two unmatched begins |
| Scroll.ScrollComponent.Render | src/pressables/render-scroll.tsx:24-43 | a rendered scroll view shares the module's flag and keeps the caller's props |
| Scroll.ScrollComponent.OnScrollBeginDrag | src/pressables/render-scroll.tsx:31-34 | sets the flag true before forwarding (the handler sees true) and returns the handler's result; with no handler nothing is forwarded and the result is undefined |
| Scroll.ScrollComponent.OnScrollEndDrag | src/pressables/render-scroll.tsx:35-38 | sets the flag false before forwarding (the handler sees false) and returns the handler's result; with no handler nothing is forwarded and the result is undefined |
| Scroll.TwoViewsShareOneFlag | src/pressables/render-scroll.tsx:6-38 | two scroll views write one flag: begin, begin on the other, end on the first leaves it false |
| Scroll.UseIsInInternalScrollContext | src/pressables/render-scroll.tsx:8-22 | a component reads true exactly when an internal scroll view is among its ancestors |
| SharedValues.UnwrapSharedValue | src/pressables/utils.ts:3-9 | non-objects, null and functions are returned unchanged, and so are objects without a value property; an object with one yields what its get() returns, or throws when it has no get |
| SharedValues.UnwrapHolder | src/pressables/utils.ts:5-6 | unwrapping a shared value gives back its current value |
| LiquidGlass.HasLiquidGlassSupport | src/integrations/liquid-glass.ts:29-31 | support is reported exactly when the kept glass view is not null, so a loaded package whose view export is undefined still counts as support |
| LiquidGlass.IsGlassEffectAvailable | src/integrations/liquid-glass.ts:29-38 | availability implies support; no availability function gives false; under expo it is the platform's answer, under callstack the captured constant |
| LiquidGlass.CallstackAvailabilityIsStable | src/integrations/liquid-glass.ts:22-23 | with the callstack package repeated availability queries agree whatever the platform answers |
| LiquidGlass.GlassIntegration.Load | src/integrations/liquid-glass.ts:6-27 | expo wins when it loads and callstack is then never consulted; callstack is used only when expo throws; if both throw the view stays null and there is no support |
| Glass.NormalizeGlassProps | src/pressables/custom/glass.tsx:52-100 | style is always [!isAvailable]; glassEffectStyle (default regular) and isInteractive (= interactive, default false) are always set; effect is never set; interactive is present exactly when interaction is off and then false; tintColor only when non-empty, colorScheme only when given; no other key |
| Glass.PressableGlass | src/pressables/custom/glass.tsx:52-107 | without glass support it renders the scale pressable with the same passed props and one warning; with support, the glass view with the full normalisation: the same key set, style [!available], glassEffectStyle, isInteractive, interactive only as false, tint and scheme values, and never effect |
| Glass.GlassAnimatedStyle | src/pressables/custom/glass.tsx:42-50 | opacity is 0.8 when pressed and 1 otherwise; scale is 1 - 0.02 * progress, so it stays within [0.98, 1] for progress in [0, 1] and is 1 at rest, 0.98 when fully pressed |
| WorkletRule.CheckCallExpression | eslint-plugin/rules/require-worklet-directive.js:21-85 | reports, on the first argument, exactly for a bare createAnimatedPressable call whose first argument is an arrow (or block-bodied) function literal that does not open with the 'worklet' directive; at most one report per call |
| WorkletRule.ExpressionBodyReports | eslint-plugin/rules/require-worklet-directive.js:43-50 | an arrow function with an expression body always reports |
| WorkletRule.EmptyBlockReports | eslint-plugin/rules/require-worklet-directive.js:56-62 | an empty block body reports |
| WorkletRule.LaterDirectiveStillReports | eslint-plugin/rules/require-worklet-directive.js:64-80 | a 'worklet' literal after a first statement that is not the directive still reports |
| WorkletRule.OnlyFirstStatementMatters | eslint-plugin/rules/require-worklet-directive.js:64-80 | statements after the first never change the verdict |
| WorkletRule.OtherCalleesPass | eslint-plugin/rules/require-worklet-directive.js:25-28 | calls of anything but the bare identifier createAnimatedPressable never report |

## Left out

- Gesture recogniser internals. The recogniser's callbacks are an input sequence, so the
  model does not decide when a tap fails or whether a touches-up still arrives after a
  failure. The 4000 ms maximum duration is only a constant.
- Execution across threads. `runOnJS` and shared values crossing between the UI thread
  and the JavaScript thread are modelled as one sequential order of effects.
- The animation clock, easing evaluation and spring physics (`withTiming`,
  `Easing.bezier`). Only the target and the parameters are modelled.
- `src/pressables/custom/scale.ts` and `src/pressables/custom/opacity.ts`: they only call
  the animation library's floating-point `interpolate`.
- `src/pressables/hoc.tsx` (a wrapper that injects `animatedStyle`).
  `src/pressables/custom/glass.tsx` therefore starts at the style function itself.
- `src/glass.tsx` and `eslint-plugin-pressto/index.js`: they only re-export or register.
- React rendering, JSX and `useMemo` identity. `console.warn` is counted, not printed.
  `require` is an input outcome.
- `GlassContainer` is stored, but nothing in the core reads it. The `spacing` glass prop
  is a type only.
- Reanimated configuration fields other than duration, easing, mass, damping and
  stiffness.
- SharedValues.UnwrapSharedValue: the `in` test is read on own properties only, with no
  prototype chain. Values such as symbols and bigints are not represented.
- Glass.PressableGlass: the props passed on (`style` and the rest) are an opaque token.
  The model shows that they are passed on unchanged, not what they contain.
- Provider.ProviderValue: a `null` `animationType` is not modelled. The destructuring
  default does not replace `null`, and indexing the defaults table with it would yield
  `undefined`.
- LiquidGlass.GlassIntegration.Load: a callstack `isLiquidGlassSupported` export that is
  not a boolean is read by its truthiness.
