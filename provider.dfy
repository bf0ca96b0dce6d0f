/**
 * The `PressablesConfig` provider of src/provider/index.tsx and the nearest-provider
 * read that descendants perform.
 */
module Provider {
  import opened Wrappers
  import opened Constants
  import opened Context
  import Scope

  /**
   * The props of `PressablesConfig`. For `animationType`, `None` is an omitted or
   * `undefined` prop (the destructuring default applies to those only); for `config`,
   * `None` is an omitted, `null` or `undefined` prop (`??` treats them alike).
   */
  datatype ProviderProps = ProviderProps(animationType: Option<AnimationType>, config: Option<AnimationConfig>)

  /**
   * Props whose supplied config fits the (defaulted) family. The TypeScript signature
   * admits more: with `animationType` omitted it also accepts a spring config, and the
   * value then pairs the timing family with that spring config.
   */
  predicate WellTyped(p: ProviderProps) {
    p.config.Some? ==> ShapeMatches(p.animationType.GetOr(Timing), p.config.value)
  }

  /**
   * The memoised context value: the family defaults to timing, a missing config is
   * replaced by that family's default table entry, a supplied one is passed on unchanged,
   * and nothing else (no global handlers) is carried.
   */
  function ProviderValue(p: ProviderProps): (v: ContextValue)
    ensures v.animationType == (if p.animationType.Some? then p.animationType.value else Timing)
    ensures p.config.Some? ==> v.config == p.config.value
    ensures p.config.None? ==> v.config == DefaultConfigFor(v.animationType)
    ensures v.globalHandlers.None?
    ensures WellTyped(p) ==> ShapeMatches(v.animationType, v.config)
  {
    var animationType := p.animationType.GetOr(Timing);
    ContextValue(animationType, p.config.GetOr(DefaultConfigFor(animationType)), None)
  }

  /** A component on the render path: a `PressablesConfig` with its props, or anything else. */
  datatype Ancestor = PressablesConfig(props: ProviderProps) | OtherComponent

  function Offered(a: Ancestor): Option<ContextValue> {
    match a
    case PressablesConfig(p) => Some(ProviderValue(p))
    case OtherComponent => None
  }

  /** What `usePressablesConfig` returns below the given ancestors. */
  function UsePressablesConfig(ancestors: seq<Ancestor>): (v: ContextValue)
    ensures (forall i :: 0 <= i < |ancestors| ==> !ancestors[i].PressablesConfig?) ==> v == DefaultContextValue()
    ensures (forall i :: 0 <= i < |ancestors| && ancestors[i].PressablesConfig? ==> WellTyped(ancestors[i].props))
            ==> ShapeMatches(v.animationType, v.config)
    ensures v.globalHandlers.None?
  {
    Scope.Read(ancestors, Offered, DefaultContextValue())
  }

  /** Descendants see the value of the nearest enclosing provider. */
  lemma NearestProviderWins(ancestors: seq<Ancestor>, k: nat)
    requires k < |ancestors| && ancestors[k].PressablesConfig?
    requires forall j :: k < j < |ancestors| ==> !ancestors[j].PressablesConfig?
    ensures UsePressablesConfig(ancestors) == ProviderValue(ancestors[k].props)
  {
    Scope.ReadNearest(ancestors, Offered, DefaultContextValue(), k);
  }

  /**
   * A provider given no props yields the built-in defaults wherever it sits: it does
   * not inherit the type or config of an enclosing provider, and it reads the same as
   * having no provider at all.
   */
  lemma EmptyProviderIsDefault(ancestors: seq<Ancestor>)
    ensures UsePressablesConfig(ancestors + [PressablesConfig(ProviderProps(None, None))]) == DefaultContextValue()
    ensures UsePressablesConfig(ancestors + [PressablesConfig(ProviderProps(None, None))]) == UsePressablesConfig([])
  {
    var path := ancestors + [PressablesConfig(ProviderProps(None, None))];
    Scope.ReadNearest(path, Offered, DefaultContextValue(), |ancestors|);
  }
}
