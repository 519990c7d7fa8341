/**
 The call wrapper `functionDecorator` of src/decorators.js, as a pure
 function from the wrapped method's behaviour, the hooks and one call's
 receiver and arguments to the hook invocations that happen (a trace) and
 what the wrapper hands back to its caller.

 The trace lists, in order, the payload each hook received and the
 arguments the wrapped method was applied to. For a deferred result the
 hooks run when the deferred value settles; the trace records them in that
 order too.
 */
module Interception {
  import opened JsValues

  /** How a hook call ends: it returns a value or throws one. */
  datatype Completion<+T> = Normal(value: T) | Abrupt(error: Value)

  /** How a deferred value (a promise) ends; `Pending` never settles. */
  datatype Settlement = Pending | Fulfilled(value: Value) | Rejected(reason: Value)

  /** What a call hands back: an immediate value, a synchronous throw, or a deferred value. */
  datatype Outcome = Returned(value: Value) | Threw(error: Value) | Deferred(settlement: Settlement)

  /** The object `onParams` receives: `{ params: args, context: this, method, chronicle }` (`method` is the member name). */
  datatype ParamsPayload = ParamsPayload(params: seq<Value>, context: Value, member: Option<string>, chronicle: Value)

  /** The `data` object: `{ rawParams: args, params, context: this, method, chronicle }`. */
  datatype CallData = CallData(rawParams: seq<Value>, params: seq<Value>, context: Value, member: Option<string>, chronicle: Value)

  /** `{ result, ...data }` */
  datatype SuccessPayload = SuccessPayload(result: Value, data: CallData)

  /** `{ error, ...data }` */
  datatype ErrorPayload = ErrorPayload(error: Value, data: CallData)

  datatype Hooks = Hooks(
    onParams: ParamsPayload -> Completion<seq<Value>>,
    onSuccess: SuccessPayload -> Completion<Value>,
    onError: ErrorPayload -> Completion<Value>,
    chronicle: Value)

  /** A callable method: receiver and argument list to outcome. */
  type Method = (Value, seq<Value>) -> Outcome

  datatype Event =
    | ParamsHook(pp: ParamsPayload)
    | Invoked(context: Value, params: seq<Value>)
    | SuccessHook(sp: SuccessPayload)
    | ErrorHook(ep: ErrorPayload)

  datatype Call = Call(trace: seq<Event>, outcome: Outcome)

  /** The caller sees a failure: a synchronous throw or a rejected deferred value. */
  predicate Escapes(o: Outcome)
  {
    o.Threw? || (o.Deferred? && o.settlement.Rejected?)
  }

  /** `_onParams`: the pass-through default of `onParams`. */
  function KeepParams(p: ParamsPayload): Completion<seq<Value>>
  {
    Normal(p.params)
  }

  /** `_onSuccess`: the pass-through default of `onSuccess`. */
  function KeepResult(p: SuccessPayload): Completion<Value>
  {
    Normal(p.result)
  }

  /** The hook calls after the method: at most one `onSuccess`, then at most one `onError`, never in the other order. */
  predicate HookTail(t: seq<Event>)
  {
    || t == []
    || (|t| == 1 && (t[0].SuccessHook? || t[0].ErrorHook?))
    || (|t| == 2 && t[0].SuccessHook? && t[1].ErrorHook?)
  }

  /** One call's protocol: `onParams` exactly once and first, the method at most once right after it, then the result hooks. */
  predicate Protocol(t: seq<Event>)
  {
    && |t| >= 1
    && t[0].ParamsHook?
    && ((|t| >= 2 && t[1].Invoked? && HookTail(t[2..])) || HookTail(t[1..]))
  }

  /** `onError`'s part: the catch block discards its value and returns undefined; the `.catch`
      handler's value becomes the deferred result. A throw from `onError` escapes either way. */
  function Absorb(h: Hooks, data: CallData, e: Value, deferred: bool): (c: Call)
    ensures c.trace == [ErrorHook(ErrorPayload(e, data))]
    ensures deferred ==> c.outcome.Deferred? && c.outcome.settlement != Pending
    ensures !deferred ==> c.outcome.Returned? || c.outcome.Threw?
    ensures Escapes(c.outcome) <==> h.onError(ErrorPayload(e, data)).Abrupt?
    ensures h.onError(ErrorPayload(e, data)).Normal? ==>
              c.outcome == if deferred then Deferred(Fulfilled(h.onError(ErrorPayload(e, data)).value)) else Returned(Undefined)
    ensures h.onError(ErrorPayload(e, data)).Abrupt? ==>
              c.outcome == if deferred then Deferred(Rejected(h.onError(ErrorPayload(e, data)).error)) else Threw(h.onError(ErrorPayload(e, data)).error)
  {
    var ep := ErrorPayload(e, data);
    match h.onError(ep)
    case Normal(r) => Call([ErrorHook(ep)], if deferred then Deferred(Fulfilled(r)) else Returned(Undefined))
    case Abrupt(e2) => Call([ErrorHook(ep)], if deferred then Deferred(Rejected(e2)) else Threw(e2))
  }

  /** `onSuccess`'s part, with a throw from it handed to `onError`
      (inside the `try`, or upstream of `.catch`). */
  function Succeed(h: Hooks, data: CallData, v: Value, deferred: bool): (c: Call)
    ensures |c.trace| >= 1 && c.trace[0] == SuccessHook(SuccessPayload(v, data))
    ensures HookTail(c.trace)
    ensures deferred ==> c.outcome.Deferred? && c.outcome.settlement != Pending
    ensures !deferred ==> c.outcome.Returned? || c.outcome.Threw?
    ensures Escapes(c.outcome) <==> c.trace[|c.trace| - 1].ErrorHook? && h.onError(c.trace[|c.trace| - 1].ep).Abrupt?
    ensures h.onSuccess(SuccessPayload(v, data)).Normal? ==>
              && c.trace == [SuccessHook(SuccessPayload(v, data))]
              && c.outcome == if deferred then Deferred(Fulfilled(h.onSuccess(SuccessPayload(v, data)).value))
                              else Returned(h.onSuccess(SuccessPayload(v, data)).value)
    ensures h.onSuccess(SuccessPayload(v, data)).Abrupt? ==>
              |c.trace| == 2 && c.trace[1] == ErrorHook(ErrorPayload(h.onSuccess(SuccessPayload(v, data)).error, data))
  {
    var sp := SuccessPayload(v, data);
    match h.onSuccess(sp)
    case Normal(r) => Call([SuccessHook(sp)], if deferred then Deferred(Fulfilled(r)) else Returned(r))
    case Abrupt(e) =>
      var a := Absorb(h, data, e, deferred);
      Call([SuccessHook(sp)] + a.trace, a.outcome)
  }

  /** Everything after the method returned `o`. */
  function Settle(h: Hooks, data: CallData, o: Outcome): (c: Call)
    ensures HookTail(c.trace)
    ensures c.outcome.Deferred? <==> o.Deferred?
    ensures c.outcome == Deferred(Pending) <==> o == Deferred(Pending)
    ensures o == Deferred(Pending) ==> c.trace == []
    ensures Escapes(c.outcome) <==> |c.trace| > 0 && c.trace[|c.trace| - 1].ErrorHook? && h.onError(c.trace[|c.trace| - 1].ep).Abrupt?
  {
    match o
    case Returned(v) => Succeed(h, data, v, false)
    case Threw(e) => Absorb(h, data, e, false)
    case Deferred(Pending) => Call([], Deferred(Pending))
    case Deferred(Fulfilled(v)) => Succeed(h, data, v, true)
    case Deferred(Rejected(e)) => Absorb(h, data, e, true)
  }

  /** One call of the wrapper `functionDecorator(method, { methodName: name, config: h })`
      with receiver `context` and arguments `args`; `callee` is `method`'s behaviour, `None`
      when it is nullish (`method?.apply` then yields undefined without a call). */
  function Invoke(callee: Option<Method>, name: Option<string>, h: Hooks, context: Value, args: seq<Value>): (c: Call)
    ensures Protocol(c.trace)
    ensures c.trace[0] == ParamsHook(ParamsPayload(args, context, name, h.chronicle))
    ensures h.onParams(ParamsPayload(args, context, name, h.chronicle)).Abrupt? ==>
              c.trace == [c.trace[0]] && c.outcome == Threw(h.onParams(ParamsPayload(args, context, name, h.chronicle)).error)
    ensures |c.trace| >= 2 && c.trace[1].Invoked? ==>
              callee.Some? && c.trace[1] == Invoked(context, h.onParams(ParamsPayload(args, context, name, h.chronicle)).value)
    ensures h.onParams(ParamsPayload(args, context, name, h.chronicle)).Normal? && callee.Some? ==> |c.trace| >= 2 && c.trace[1].Invoked?
    ensures h.onParams(ParamsPayload(args, context, name, h.chronicle)).Normal? && callee.None? ==>
              var data := CallData(args, h.onParams(ParamsPayload(args, context, name, h.chronicle)).value, context, name, h.chronicle);
              |c.trace| >= 2 && c.trace[1] == SuccessHook(SuccessPayload(Undefined, data))
  {
    var pp := ParamsPayload(args, context, name, h.chronicle);
    match h.onParams(pp)
    case Abrupt(e) => Call([ParamsHook(pp)], Threw(e))
    case Normal(params) =>
      var data := CallData(args, params, context, name, h.chronicle);
      match callee
      case None =>
        var s := Settle(h, data, Returned(Undefined));
        Call([ParamsHook(pp)] + s.trace, s.outcome)
      case Some(f) =>
        var s := Settle(h, data, f(context, params));
        Call([ParamsHook(pp), Invoked(context, params)] + s.trace, s.outcome)
  }

  /** A failure reaches the wrapper's caller only when `onParams` threw (outside the `try`)
      or the `onError` hook that ran last threw; everything the method or `onSuccess` throws
      or rejects with is absorbed. */
  lemma EscapeIff(callee: Option<Method>, name: Option<string>, h: Hooks, context: Value, args: seq<Value>)
    ensures var c := Invoke(callee, name, h, context, args);
            Escapes(c.outcome) <==>
              || h.onParams(ParamsPayload(args, context, name, h.chronicle)).Abrupt?
              || (c.trace[|c.trace| - 1].ErrorHook? && h.onError(c.trace[|c.trace| - 1].ep).Abrupt?)
  {
  }

  /** With an `onError` that returns (the `console.error` default does), a decorated call never
      throws or rejects unless `onParams` throws. */
  lemma ErrorsAbsorbed(callee: Option<Method>, name: Option<string>, h: Hooks, context: Value, args: seq<Value>)
    requires h.onParams(ParamsPayload(args, context, name, h.chronicle)).Normal?
    requires forall p :: h.onError(p).Normal?
    ensures !Escapes(Invoke(callee, name, h, context, args).outcome)
  {
    EscapeIff(callee, name, h, context, args);
  }

  /** Synchronous success: the method runs once on `onParams`' result and the wrapper returns
      what `onSuccess` makes of `{ result, rawParams: args, params, ... }`. */
  lemma SyncSuccess(f: Method, name: Option<string>, h: Hooks, context: Value, args: seq<Value>, params: seq<Value>, v: Value, r: Value)
    requires h.onParams(ParamsPayload(args, context, name, h.chronicle)) == Normal(params)
    requires f(context, params) == Returned(v)
    requires h.onSuccess(SuccessPayload(v, CallData(args, params, context, name, h.chronicle))) == Normal(r)
    ensures Invoke(Some(f), name, h, context, args) ==
              Call([ParamsHook(ParamsPayload(args, context, name, h.chronicle)),
                    Invoked(context, params),
                    SuccessHook(SuccessPayload(v, CallData(args, params, context, name, h.chronicle)))],
                   Returned(r))
  {
  }

  /** Synchronous failure: when the method throws `e`, `onError` is called once with `e` and the
      wrapper returns undefined instead of rethrowing. */
  lemma SyncFailure(f: Method, name: Option<string>, h: Hooks, context: Value, args: seq<Value>, params: seq<Value>, e: Value)
    requires h.onParams(ParamsPayload(args, context, name, h.chronicle)) == Normal(params)
    requires f(context, params) == Threw(e)
    requires h.onError(ErrorPayload(e, CallData(args, params, context, name, h.chronicle))).Normal?
    ensures Invoke(Some(f), name, h, context, args) ==
              Call([ParamsHook(ParamsPayload(args, context, name, h.chronicle)),
                    Invoked(context, params),
                    ErrorHook(ErrorPayload(e, CallData(args, params, context, name, h.chronicle)))],
                   Returned(Undefined))
  {
  }

  /** A throw from `onSuccess` is inside the `try`: `onError` receives it and the wrapper
      returns undefined (or, for a deferred result, resolves to `onError`'s value). */
  lemma SuccessHookThrows(f: Method, name: Option<string>, h: Hooks, context: Value, args: seq<Value>, params: seq<Value>, deferred: bool, v: Value, e: Value, r: Value)
    requires h.onParams(ParamsPayload(args, context, name, h.chronicle)) == Normal(params)
    requires f(context, params) == if deferred then Deferred(Fulfilled(v)) else Returned(v)
    requires h.onSuccess(SuccessPayload(v, CallData(args, params, context, name, h.chronicle))) == Abrupt(e)
    requires h.onError(ErrorPayload(e, CallData(args, params, context, name, h.chronicle))) == Normal(r)
    ensures var c := Invoke(Some(f), name, h, context, args);
            && |c.trace| == 4 && c.trace[2].SuccessHook?
            && c.trace[3] == ErrorHook(ErrorPayload(e, CallData(args, params, context, name, h.chronicle)))
            && c.outcome == if deferred then Deferred(Fulfilled(r)) else Returned(Undefined)
  {
  }

  /** A fulfilled deferred result: the method runs once on `onParams`' result and the wrapper's
      deferred value is fulfilled with what `onSuccess` makes of `{ result, ...data }`. */
  lemma AsyncSuccess(f: Method, name: Option<string>, h: Hooks, context: Value, args: seq<Value>, params: seq<Value>, v: Value, r: Value)
    requires h.onParams(ParamsPayload(args, context, name, h.chronicle)) == Normal(params)
    requires f(context, params) == Deferred(Fulfilled(v))
    requires h.onSuccess(SuccessPayload(v, CallData(args, params, context, name, h.chronicle))) == Normal(r)
    ensures Invoke(Some(f), name, h, context, args) ==
              Call([ParamsHook(ParamsPayload(args, context, name, h.chronicle)),
                    Invoked(context, params),
                    SuccessHook(SuccessPayload(v, CallData(args, params, context, name, h.chronicle)))],
                   Deferred(Fulfilled(r)))
  {
  }

  /** A rejected deferred result is turned into a fulfilled one carrying `onError`'s value. */
  lemma RejectionResolves(f: Method, name: Option<string>, h: Hooks, context: Value, args: seq<Value>, params: seq<Value>, e: Value, r: Value)
    requires h.onParams(ParamsPayload(args, context, name, h.chronicle)) == Normal(params)
    requires f(context, params) == Deferred(Rejected(e))
    requires h.onError(ErrorPayload(e, CallData(args, params, context, name, h.chronicle))) == Normal(r)
    ensures Invoke(Some(f), name, h, context, args).outcome == Deferred(Fulfilled(r))
  {
  }

  /** A throw from `onParams` is outside the `try`: it propagates and no other hook runs. */
  lemma ParamsHookThrows(callee: Option<Method>, name: Option<string>, h: Hooks, context: Value, args: seq<Value>, e: Value)
    requires h.onParams(ParamsPayload(args, context, name, h.chronicle)) == Abrupt(e)
    ensures Invoke(callee, name, h, context, args) == Call([ParamsHook(ParamsPayload(args, context, name, h.chronicle))], Threw(e))
  {
  }

  /** The synchronous and the deferred path treat a value alike: `onSuccess` gets the same payload,
      and its value is returned directly or becomes the fulfilment value. */
  lemma SyncAsyncUniform(f: Method, g: Method, name: Option<string>, h: Hooks, context: Value, args: seq<Value>, v: Value)
    requires h.onParams(ParamsPayload(args, context, name, h.chronicle)).Normal?
    requires var params := h.onParams(ParamsPayload(args, context, name, h.chronicle)).value;
             f(context, params) == Returned(v) && g(context, params) == Deferred(Fulfilled(v))
    ensures var cf, cg := Invoke(Some(f), name, h, context, args), Invoke(Some(g), name, h, context, args);
            && cf.trace == cg.trace
            && cf.trace[2].SuccessHook? && cf.trace[2].sp.result == v
            && (h.onSuccess(cf.trace[2].sp).Normal? ==>
                  var r := h.onSuccess(cf.trace[2].sp).value;
                  cf.outcome == Returned(r) && cg.outcome == Deferred(Fulfilled(r)))
  {
  }

  /** With the pass-through defaults `_onParams` and `_onSuccess`, the method receives the
      caller's arguments and any result that is not a failure comes back unchanged. */
  lemma PassThroughTransparent(f: Method, name: Option<string>, onError: ErrorPayload -> Completion<Value>, chronicle: Value, context: Value, args: seq<Value>)
    ensures var c := Invoke(Some(f), name, Hooks(KeepParams, KeepResult, onError, chronicle), context, args);
            && c.trace[1] == Invoked(context, args)
            && (!f(context, args).Threw? && !(f(context, args).Deferred? && f(context, args).settlement.Rejected?) ==>
                  c.outcome == f(context, args))
  {
  }
}
