/**
 * The slice of JavaScript's value semantics that the helpers rely on:
 * values, truthiness, nullish coalescing and option objects merged by
 * object spread.
 */
module Js {
  import opened Wrappers

  /**
   * A JavaScript value as it crosses the message and storage boundaries.
   * Numbers are modelled as integers; arrays as objects.
   */
  datatype Value =
    | Undefined
    | Null
    | Bool(b: bool)
    | Num(n: int)
    | Str(s: string)
    | Obj(fields: map<string, Value>)

  /** `!!v` in JavaScript (NaN is not modelled). */
  predicate Truthy(v: Value)
  {
    match v
    case Undefined => false
    case Null => false
    case Bool(b) => b
    case Num(n) => n != 0
    case Str(s) => s != ""
    case Obj(_) => true
  }

  /** `v ?? fallback`: the fallback replaces only `null` and `undefined`. */
  function Coalesce(v: Value, fallback: Value): (r: Value)
    ensures v == Null || v == Undefined ==> r == fallback
    ensures v != Null && v != Undefined ==> r == v
  {
    if v == Null || v == Undefined then fallback else v
  }

  /**
   * One property of a `Partial<...>` options object: either the key is
   * left out, or it is present with a value that may be `undefined`.
   */
  datatype Prop<+T> = Omitted | Present(value: Option<T>)

  /**
   * The property after `{key: default, ...options}`: a key that is present
   * overrides the default even when its value is `undefined`.
   */
  function Spread<T>(default: Option<T>, p: Prop<T>): (r: Option<T>)
    ensures p.Omitted? ==> r == default
    ensures p.Present? ==> r == p.value
  {
    match p
    case Omitted => default
    case Present(v) => v
  }

  /** A JavaScript boolean option after defaulting; `undefined` reads as false. */
  predicate IsSet(b: Option<bool>)
  {
    b == Some(true)
  }
}
