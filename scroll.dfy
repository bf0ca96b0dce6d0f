/**
 * src/pressables/render-scroll.tsx: the module-wide `isScrolling` flag that every
 * scroll view rendered through `renderScrollComponent` writes on drag begin and end
 * before forwarding to the caller's own drag handlers, and the internal-scrollable
 * context that tells a component whether it is rendered inside such a scroll view.
 *
 * Nothing in this file reads `isScrolling`; only its writes are modelled.
 */
module Scroll {
  import opened Wrappers
  import Scope

  /** The shared mutable created by `makeMutable(false)` at module load. */
  class ScrollingFlag {
    var value: bool

    constructor ()
      ensures !value
    {
      value := false;
    }
  }

  /** A drag event, opaque to the wrapper: it is only passed along. */
  type DragEvent = nat

  /**
   * A caller's drag handler. Its second argument is the value of `isScrolling` at the
   * moment it runs, so that the order of write and forward is observable.
   */
  type DragHandler = (DragEvent, bool) -> int

  datatype DragPhase = BeginDrag | EndDrag

  /** One call forwarded to a caller's handler. */
  datatype Forwarded = Forwarded(phase: DragPhase, event: DragEvent, sawScrolling: bool)

  /** The drag handlers among the props handed to `renderScrollComponent`. */
  datatype ScrollViewProps = ScrollViewProps(onScrollBeginDrag: Option<DragHandler>, onScrollEndDrag: Option<DragHandler>)

  /** The value each drag phase writes to the flag. */
  function Written(phase: DragPhase): bool {
    phase == BeginDrag
  }

  /**
   * The flag after a sequence of drag phases, oldest first. Every rendered scroll view
   * writes the same flag object, so the sequence interleaves the drags of all of them
   * (see `TwoViewsShareOneFlag` for the aliasing itself).
   */
  function FlagAfter(initial: bool, drags: seq<DragPhase>): bool
    decreases |drags|
  {
    if drags == [] then initial else FlagAfter(Written(drags[0]), drags[1..])
  }

  /** After any drags the flag holds what the most recent one wrote. */
  lemma {:induction false} FlagIsLastWrite(initial: bool, drags: seq<DragPhase>)
    requires drags != []
    ensures FlagAfter(initial, drags) == (drags[|drags| - 1] == BeginDrag)
    decreases |drags|
  {
    if |drags| > 1 {
      FlagIsLastWrite(Written(drags[0]), drags[1..]);
    }
  }

  /**
   * The flag does not count open drags: one end of drag clears it even after two
   * begins that were never matched.
   */
  lemma EndDragClearsOpenDrags(initial: bool, drags: seq<DragPhase>)
    ensures !FlagAfter(initial, drags + [BeginDrag, BeginDrag, EndDrag])
  {
    FlagIsLastWrite(initial, drags + [BeginDrag, BeginDrag, EndDrag]);
  }

  /** A scroll view rendered by `renderScrollComponent`, sharing the module's flag. */
  class ScrollComponent {
    const isScrolling: ScrollingFlag
    const props: ScrollViewProps
    var forwarded: seq<Forwarded>

    constructor Render(isScrolling: ScrollingFlag, props: ScrollViewProps)
      ensures this.isScrolling == isScrolling && this.props == props && forwarded == []
    {
      this.isScrolling := isScrolling;
      this.props := props;
      forwarded := [];
    }

    /** The wrapped `onScrollBeginDrag`: set the flag, then forward and return the handler's result. */
    method OnScrollBeginDrag(event: DragEvent) returns (r: Option<int>)
      modifies this, isScrolling
      ensures isScrolling.value == Written(BeginDrag)
      ensures props.onScrollBeginDrag.None? ==> r.None? && forwarded == old(forwarded)
      ensures props.onScrollBeginDrag.Some? ==>
                && r == Some(props.onScrollBeginDrag.value(event, true))
                && forwarded == old(forwarded) + [Forwarded(BeginDrag, event, true)]
    {
      isScrolling.value := true;
      match props.onScrollBeginDrag
      case Some(handler) =>
        forwarded := forwarded + [Forwarded(BeginDrag, event, isScrolling.value)];
        r := Some(handler(event, isScrolling.value));
      case None =>
        r := None;
    }

    /** The wrapped `onScrollEndDrag`: clear the flag, then forward and return the handler's result. */
    method OnScrollEndDrag(event: DragEvent) returns (r: Option<int>)
      modifies this, isScrolling
      ensures isScrolling.value == Written(EndDrag)
      ensures props.onScrollEndDrag.None? ==> r.None? && forwarded == old(forwarded)
      ensures props.onScrollEndDrag.Some? ==>
                && r == Some(props.onScrollEndDrag.value(event, false))
                && forwarded == old(forwarded) + [Forwarded(EndDrag, event, false)]
    {
      isScrolling.value := false;
      match props.onScrollEndDrag
      case Some(handler) =>
        forwarded := forwarded + [Forwarded(EndDrag, event, isScrolling.value)];
        r := Some(handler(event, isScrolling.value));
      case None =>
        r := None;
    }
  }

  /**
   * Two scroll views over the one module flag: the first begins and ends a drag while
   * the second is still dragging, and the flag reads false.
   */
  method TwoViewsShareOneFlag(props: ScrollViewProps) returns (scrolling: bool)
    ensures !scrolling
  {
    var flag := new ScrollingFlag();
    var first := new ScrollComponent.Render(flag, props);
    var second := new ScrollComponent.Render(flag, props);
    var _ := first.OnScrollBeginDrag(0);
    var _ := second.OnScrollBeginDrag(1);
    assert flag.value;
    var _ := first.OnScrollEndDrag(2);
    scrolling := flag.value;
  }

  /** A component on the render path: an internal scroll view, or anything else. */
  datatype Ancestor = InternalScrollView | OtherComponent

  function Offered(a: Ancestor): Option<bool> {
    if a.InternalScrollView? then Some(true) else None
  }

  /** `useIsInInternalScrollContext`: true exactly below an internal scroll view. */
  function UseIsInInternalScrollContext(ancestors: seq<Ancestor>): (inside: bool)
    ensures inside <==> exists i :: 0 <= i < |ancestors| && ancestors[i] == InternalScrollView
  {
    Scope.Read(ancestors, Offered, false)
  }
}
