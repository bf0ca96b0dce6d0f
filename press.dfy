/**
 * `BasePressable` of src/pressables/base.tsx: a tap recogniser drives one `active`
 * flag through three callbacks, each of which also forwards to an optional user
 * handler; the animated progress heads for 1 while `active` holds and for 0 otherwise.
 *
 * The recogniser itself is not modelled: its callbacks arrive as a sequence of
 * `TapEvent`s. Every observable write (to `active`) and every handler invocation is
 * appended, in program order, to an effect trace.
 */
module Press {
  import opened Wrappers
  import opened Constants

  /** The tap recogniser fails a touch held longer than this (milliseconds). */
  const TapMaxDurationMs: nat := 4000

  /** The three optional user handlers. */
  datatype Callback = OnPressIn | OnPress | OnPressOut

  /** Which handlers were supplied (true) or left `null`/`undefined` (false). */
  datatype Handlers = Handlers(onPressIn: bool, onPress: bool, onPressOut: bool)

  predicate Provided(h: Handlers, c: Callback) {
    match c
    case OnPressIn => h.onPressIn
    case OnPress => h.onPress
    case OnPressOut => h.onPressOut
  }

  /**
   * How the recogniser ended the gesture; the finalize callback receives it but
   * ignores it. `ExceededMaxDuration` is the failure of a touch held longer than
   * `TapMaxDurationMs`.
   */
  datatype TapOutcome = Recognized | Failed | Cancelled | ExceededMaxDuration

  /** The recogniser's callbacks, in the order it delivers them. */
  datatype TapEvent = TouchesDown | TouchesUp | Finalize(outcome: TapOutcome)

  /** One observable step: a write of the `active` flag or a handler invocation. */
  datatype Effect = SetActive(value: bool) | Invoke(callback: Callback)

  /** The flag and the trace of everything done so far. */
  datatype PressState = PressState(active: bool, effects: seq<Effect>)

  /** A freshly mounted pressable: not active, nothing done. */
  const Idle := PressState(false, [])

  /** The invocation of `c`, when its handler was supplied. */
  function InvokeIf(h: Handlers, c: Callback): seq<Effect> {
    if Provided(h, c) then [Invoke(c)] else []
  }

  /** The effect of one recogniser callback. */
  function Step(h: Handlers, s: PressState, e: TapEvent): PressState {
    match e
    case TouchesDown => PressState(true, s.effects + [SetActive(true)] + InvokeIf(h, OnPressIn))
    case TouchesUp => PressState(s.active, s.effects + InvokeIf(h, OnPress))
    case Finalize(_) => PressState(false, s.effects + [SetActive(false)] + InvokeIf(h, OnPressOut))
  }

  /** The effect of a whole sequence of callbacks. */
  function Replay(h: Handlers, s: PressState, events: seq<TapEvent>): PressState
    decreases |events|
  {
    if events == [] then s else Replay(h, Step(h, s, events[0]), events[1..])
  }

  /** The value of the last write of the flag in a trace, if any. */
  function LastWrite(effects: seq<Effect>): Option<bool>
    decreases |effects|
  {
    if effects == [] then None
    else match effects[|effects| - 1]
      case SetActive(b) => Some(b)
      case Invoke(_) => LastWrite(effects[..|effects| - 1])
  }

  /** The flag always holds the value last written to it, or its initial false. */
  predicate Consistent(s: PressState) {
    s.active == LastWrite(s.effects).GetOr(false)
  }

  /** The handler invocations of a trace, in order. */
  function Invoked(effects: seq<Effect>): seq<Callback>
    decreases |effects|
  {
    if effects == [] then []
    else match effects[|effects| - 1]
      case SetActive(_) => Invoked(effects[..|effects| - 1])
      case Invoke(c) => Invoked(effects[..|effects| - 1]) + [c]
  }

  /** The flag value an event writes: down writes true, finalize false, up nothing. */
  function FlagWrittenBy(e: TapEvent): Option<bool> {
    match e
    case TouchesDown => Some(true)
    case TouchesUp => None
    case Finalize(_) => Some(false)
  }

  /** The flag value written by the last event of a sequence that writes one. */
  function LastFlagWritten(events: seq<TapEvent>): Option<bool>
    decreases |events|
  {
    if events == [] then None
    else match FlagWrittenBy(events[|events| - 1])
      case Some(b) => Some(b)
      case None => LastFlagWritten(events[..|events| - 1])
  }

  /** The handler slot each event forwards to. */
  function Forwards(e: TapEvent): Callback {
    match e
    case TouchesDown => OnPressIn
    case TouchesUp => OnPress
    case Finalize(_) => OnPressOut
  }

  /** How many events of a sequence forward to `c`. */
  function ForwardCount(events: seq<TapEvent>, c: Callback): nat
    decreases |events|
  {
    if events == [] then 0
    else (if Forwards(events[0]) == c then 1 else 0) + ForwardCount(events[1..], c)
  }

  // ---------------------------------------------------------------------------
  // Properties of the event machine

  lemma {:induction false} LastWriteAppend(effects: seq<Effect>, more: seq<Effect>)
    ensures LastWrite(effects + more) == if LastWrite(more).Some? then LastWrite(more) else LastWrite(effects)
    decreases |more|
  {
    if more == [] {
      assert effects + more == effects;
    } else {
      var all := effects + more;
      assert all[..|all| - 1] == effects + more[..|more| - 1];
      assert all[|all| - 1] == more[|more| - 1];
      LastWriteAppend(effects, more[..|more| - 1]);
    }
  }

  /** Every callback leaves the flag equal to the last value written to it. */
  lemma StepConsistent(h: Handlers, s: PressState, e: TapEvent)
    requires Consistent(s)
    ensures Consistent(Step(h, s, e))
  {
    match e
    case TouchesDown =>
      LastWriteAppend(s.effects, [SetActive(true)] + InvokeIf(h, OnPressIn));
      assert s.effects + [SetActive(true)] + InvokeIf(h, OnPressIn) == s.effects + ([SetActive(true)] + InvokeIf(h, OnPressIn));
      assert LastWrite([SetActive(true)] + InvokeIf(h, OnPressIn)) == Some(true) by {
        var tail := [SetActive(true)] + InvokeIf(h, OnPressIn);
        if Provided(h, OnPressIn) { assert tail[..|tail| - 1] == [SetActive(true)]; }
      }
    case TouchesUp =>
      LastWriteAppend(s.effects, InvokeIf(h, OnPress));
      assert LastWrite(InvokeIf(h, OnPress)) == None by {
        if Provided(h, OnPress) { assert InvokeIf(h, OnPress)[..0] == []; }
      }
    case Finalize(_) =>
      LastWriteAppend(s.effects, [SetActive(false)] + InvokeIf(h, OnPressOut));
      assert s.effects + [SetActive(false)] + InvokeIf(h, OnPressOut) == s.effects + ([SetActive(false)] + InvokeIf(h, OnPressOut));
      assert LastWrite([SetActive(false)] + InvokeIf(h, OnPressOut)) == Some(false) by {
        var tail := [SetActive(false)] + InvokeIf(h, OnPressOut);
        if Provided(h, OnPressOut) { assert tail[..|tail| - 1] == [SetActive(false)]; }
      }
  }

  /** Any sequence of callbacks keeps the flag consistent with its trace. */
  lemma {:induction false} ReplayConsistent(h: Handlers, s: PressState, events: seq<TapEvent>)
    requires Consistent(s)
    ensures Consistent(Replay(h, s, events))
    decreases |events|
  {
    if events != [] {
      StepConsistent(h, s, events[0]);
      ReplayConsistent(h, Step(h, s, events[0]), events[1..]);
    }
  }

  lemma {:induction false} LastFlagWrittenCons(e: TapEvent, events: seq<TapEvent>)
    ensures LastFlagWritten([e] + events) == if LastFlagWritten(events).Some? then LastFlagWritten(events) else FlagWrittenBy(e)
    decreases |events|
  {
    var all := [e] + events;
    if events == [] {
      assert all[..0] == [];
    } else {
      assert all[..|all| - 1] == [e] + events[..|events| - 1];
      assert all[|all| - 1] == events[|events| - 1];
      LastFlagWrittenCons(e, events[..|events| - 1]);
    }
  }

  /**
   * After any sequence of callbacks the flag is the value written by the last
   * touches-down (true) or finalize (false); touches-up never changes it.
   */
  lemma {:induction false} ReplayActive(h: Handlers, s: PressState, events: seq<TapEvent>)
    ensures Replay(h, s, events).active == LastFlagWritten(events).GetOr(s.active)
    decreases |events|
  {
    if events != [] {
      var next := Step(h, s, events[0]);
      ReplayActive(h, next, events[1..]);
      assert events == [events[0]] + events[1..];
      LastFlagWrittenCons(events[0], events[1..]);
    }
  }

  /** However the tap ended, once finalize has run the flag is false. */
  lemma EndsInactive(h: Handlers, s: PressState, events: seq<TapEvent>)
    requires events != [] && events[|events| - 1].Finalize?
    ensures !Replay(h, s, events).active
  {
    ReplayActive(h, s, events);
  }

  /**
   * Each handler runs once per event that forwards to it when it was supplied, and
   * never when it was left null or undefined.
   */
  lemma {:induction false} InvocationCount(h: Handlers, s: PressState, events: seq<TapEvent>, c: Callback)
    ensures multiset(Replay(h, s, events).effects)[Invoke(c)]
         == multiset(s.effects)[Invoke(c)] + (if Provided(h, c) then ForwardCount(events, c) else 0)
    decreases |events|
  {
    if events != [] {
      var next := Step(h, s, events[0]);
      InvocationCount(h, next, events[1..], c);
    }
  }

  /** A handler that was not supplied never appears in the trace. */
  lemma AbsentHandlerNeverInvoked(h: Handlers, events: seq<TapEvent>, c: Callback)
    requires !Provided(h, c)
    ensures Invoke(c) !in Replay(h, Idle, events).effects
  {
    InvocationCount(h, Idle, events, c);
  }

  /**
   * A complete tap, however it ended: the flag goes up, the three handlers run in
   * the order press-in, press, press-out, and the flag ends down.
   */
  lemma TapSequence(outcome: TapOutcome)
    ensures var h := Handlers(true, true, true);
            var s := Replay(h, Idle, [TouchesDown, TouchesUp, Finalize(outcome)]);
            && s.effects == [SetActive(true), Invoke(OnPressIn), Invoke(OnPress), SetActive(false), Invoke(OnPressOut)]
            && Invoked(s.effects) == [OnPressIn, OnPress, OnPressOut]
            && !s.active
  {
    var h := Handlers(true, true, true);
    var events := [TouchesDown, TouchesUp, Finalize(outcome)];
    var s1 := Step(h, Idle, TouchesDown);
    assert s1 == PressState(true, [SetActive(true), Invoke(OnPressIn)]);
    var s2 := Step(h, s1, TouchesUp);
    assert s2 == PressState(true, [SetActive(true), Invoke(OnPressIn), Invoke(OnPress)]);
    var s3 := Step(h, s2, Finalize(outcome));
    var e := [SetActive(true), Invoke(OnPressIn), Invoke(OnPress), SetActive(false), Invoke(OnPressOut)];
    assert s3 == PressState(false, e);
    assert events[1..] == [TouchesUp, Finalize(outcome)];
    assert events[1..][1..] == [Finalize(outcome)];
    assert Replay(h, s3, []) == s3;
    assert Replay(h, s2, [Finalize(outcome)]) == s3;
    assert Replay(h, s1, [TouchesUp, Finalize(outcome)]) == s3;
    assert Replay(h, Idle, events) == s3;
    assert e[..4] == [SetActive(true), Invoke(OnPressIn), Invoke(OnPress), SetActive(false)];
    assert e[..4][..3] == [SetActive(true), Invoke(OnPressIn), Invoke(OnPress)];
    assert e[..4][..3][..2] == [SetActive(true), Invoke(OnPressIn)];
    assert e[..4][..3][..2][..1] == [SetActive(true)];
    assert Invoked([SetActive(true)]) == [] by { assert [SetActive(true)][..0] == []; }
    assert Invoked(e[..2]) == [OnPressIn];
    assert e[..3][..2] == e[..2];
    assert Invoked(e[..3]) == [OnPressIn, OnPress];
    assert e[..4][..3] == e[..3];
    assert Invoked(e[..4]) == [OnPressIn, OnPress];
  }

  // ---------------------------------------------------------------------------
  // Progress and style

  /** The animation `useDerivedValue` starts: `withTiming` towards a target with fixed parameters. */
  datatype ProgressAnimation = WithTiming(toValue: real, config: TimingConfig)

  /** The progress heads for 1 exactly while the flag is set, over 250 ms on the default curve. */
  function ProgressAnimationFor(active: bool): (a: ProgressAnimation)
    ensures a.toValue == 1.0 <==> active
    ensures a.toValue == 0.0 <==> !active
    ensures a.config == DefaultAnimationConfigs().timing
    ensures a.config.durationMs == 250.0
  {
    WithTiming(if active then 1.0 else 0.0, TimingConfig(250.0, Bezier(0.25, 0.1, 0.25, 1.0)))
  }

  datatype StyleValue = Num(n: real) | Text(s: string)

  /** A flat style object, property name to value. */
  type Style = map<string, StyleValue>

  /** The style computed from the progress; empty when no `animatedStyle` was given. */
  function ComputedStyle(animatedStyle: Option<real -> Style>, progress: real): (s: Style)
    ensures animatedStyle.None? ==> s == map[]
    ensures animatedStyle.Some? ==> s == animatedStyle.value(progress)
  {
    match animatedStyle
    case None => map[]
    case Some(f) => f(progress)
  }

  /**
   * The style list `[style, computed]` as the host flattens it: later entries win,
   * so the computed style overrides the static one property by property.
   */
  function ViewStyle(style: Option<Style>, computed: Style): (r: Style)
    ensures r.Keys == style.GetOr(map[]).Keys + computed.Keys
    ensures forall k :: k in computed ==> r[k] == computed[k]
    ensures forall k :: k in r && k !in computed ==> style.Some? && r[k] == style.value[k]
  {
    style.GetOr(map[]) + computed
  }

  // ---------------------------------------------------------------------------
  // The component instance

  class BasePressable {
    const handlers: Handlers
    var active: bool
    var effects: seq<Effect>

    function State(): PressState
      reads this
    {
      PressState(active, effects)
    }

    ghost predicate Valid()
      reads this
    {
      Consistent(State())
    }

    /** Mounting: the shared `active` value starts false. */
    constructor (handlers: Handlers)
      ensures this.handlers == handlers
      ensures State() == Idle && !active && Valid()
    {
      this.handlers := handlers;
      active := false;
      effects := [];
    }

    /** `onTouchesDown`: set the flag, then call `onPressIn` if supplied. */
    method OnTouchesDown()
      requires Valid()
      modifies this
      ensures Valid() && active
      ensures effects == old(effects) + [SetActive(true)] + (if handlers.onPressIn then [Invoke(OnPressIn)] else [])
      ensures State() == Step(handlers, old(State()), TouchesDown)
    {
      StepConsistent(handlers, State(), TouchesDown);
      active := true;
      effects := effects + [SetActive(true)];
      if handlers.onPressIn {
        effects := effects + [Invoke(OnPressIn)];
      }
    }

    /** `onTouchesUp`: call `onPress` if supplied; the flag is left alone. */
    method OnTouchesUp()
      requires Valid()
      modifies this
      ensures Valid() && active == old(active)
      ensures effects == old(effects) + (if handlers.onPress then [Invoke(OnPress)] else [])
      ensures State() == Step(handlers, old(State()), TouchesUp)
    {
      StepConsistent(handlers, State(), TouchesUp);
      if handlers.onPress {
        effects := effects + [Invoke(OnPress)];
      }
    }

    /** `onFinalize`, whatever the outcome: clear the flag, then call `onPressOut` if supplied. */
    method OnFinalize(outcome: TapOutcome)
      requires Valid()
      modifies this
      ensures Valid() && !active
      ensures effects == old(effects) + [SetActive(false)] + (if handlers.onPressOut then [Invoke(OnPressOut)] else [])
      ensures State() == Step(handlers, old(State()), Finalize(outcome))
    {
      StepConsistent(handlers, State(), Finalize(outcome));
      active := false;
      effects := effects + [SetActive(false)];
      if handlers.onPressOut {
        effects := effects + [Invoke(OnPressOut)];
      }
    }

    /** The animation the derived progress value currently runs. */
    function Progress(): (a: ProgressAnimation)
      reads this
      ensures a.toValue == 1.0 <==> active
    {
      ProgressAnimationFor(active)
    }
  }
}
