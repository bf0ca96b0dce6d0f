/**
 * `unwrapSharedValue` of src/pressables/utils.ts: a value that may be a plain value or
 * a reanimated shared-value holder is read through the holder's `get()`.
 */
module SharedValues {
  import opened Wrappers

  /**
   * The JavaScript values the test distinguishes. An object lists its own properties
   * and what its `get()` method returns (`None`: it has no callable `get`); a function
   * is its own `typeof` kind, whatever properties it carries.
   */
  datatype JsValue =
    | Undefined
    | Null
    | Boolean(b: bool)
    | Number(n: real)
    | Text(s: string)
    | Function(properties: map<string, JsValue>)
    | Object(properties: map<string, JsValue>, get: Option<JsValue>)

  /** A call on a value that is not a function. */
  datatype TypeError = NotAFunction(name: string)

  /** A shared value holding `current`: its `value` property and its `get()` both give `current`. */
  function Holder(current: JsValue): (h: JsValue)
    ensures h.Object? && "value" in h.properties && h.get == Some(current)
  {
    Object(map["value" := current], Some(current))
  }

  /** `typeof base === 'object' && base !== null && 'value' in base`. */
  predicate LooksShared(base: JsValue) {
    base.Object? && "value" in base.properties
  }

  /**
   * A value that looks like a shared value yields what its `get()` returns (or throws
   * when it has no `get`); every other value, `null` and functions included, comes
   * back unchanged.
   */
  function UnwrapSharedValue(base: JsValue): (r: Result<JsValue, TypeError>)
    ensures !LooksShared(base) ==> r == Success(base)
    ensures base.Null? || base.Undefined? || base.Function? ==> r == Success(base)
    ensures LooksShared(base) && base.get.Some? ==> r == Success(base.get.value)
    ensures r.Failure? <==> LooksShared(base) && base.get.None?
  {
    if base.Object? && "value" in base.properties then
      match base.get
      case Some(v) => Success(v)
      case None => Failure(NotAFunction("get"))
    else
      Success(base)
  }

  /** Unwrapping a shared value gives back what it holds. */
  lemma UnwrapHolder(current: JsValue)
    ensures UnwrapSharedValue(Holder(current)) == Success(current)
  {
  }
}
