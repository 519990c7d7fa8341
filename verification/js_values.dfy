/**
 Values of the host language as the decoration engine sees them.

 Wrappers produced by the engine are kept as symbolic terms: a `Wrapper`
 records the method it wraps, the member name it was installed under and the
 hook configuration it was built with. What a user function does when called
 is not part of a value; `Semantics` supplies it from an environment.
 */
module JsValues {

  datatype Option<+T> = None | Some(value: T)

  /** The hooks the engine supplies itself when the method bag gives none. */
  datatype Builtin =
    | PassParams    // `_onParams`: returns the raw argument list unchanged
    | PassResult    // `_onSuccess`: returns the result unchanged
    | ConsoleError  // `console.error`: the process-wide default error reporter

  datatype Value =
    | Undefined
    | Null
      /** booleans, numbers, strings: only their truthiness matters here */
    | Prim(id: nat, truthy: bool)
      /** an object that cannot be called */
    | Object(id: nat)
      /** a function written by the user */
    | Function(id: nat)
    | Native(hook: Builtin)
      /** the function `functionDecorator(wrapped, { methodName: name, config })` returns */
    | Wrapper(wrapped: Value, name: Option<string>, config: Config)

  /** The per-member hook configuration `{ onParams, onSuccess, onError, chronicle }`. */
  datatype Config = Config(onParams: Value, onSuccess: Value, onError: Value, chronicle: Value)

  /** JavaScript truthiness, as used by `methods.before_default || _onParams`. */
  predicate Truthy(v: Value)
  {
    match v
    case Undefined => false
    case Null => false
    case Prim(_, t) => t
    case _ => true
  }

  /** What `typeof v === 'function'` answers. */
  predicate IsCallable(v: Value)
  {
    v.Function? || v.Native? || v.Wrapper?
  }

  /** Values on which the optional call `method?.apply(...)` short-circuits. */
  predicate Nullish(v: Value)
  {
    v.Undefined? || v.Null?
  }
}
