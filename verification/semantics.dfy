/**
 Calling values. A wrapper built by the engine behaves as `functionDecorator`
 says, with its configured hooks resolved to behaviour; everything else the
 user wrote (plain functions, custom hooks) behaves as an environment says.
 */
module Semantics {
  import opened JsValues
  import opened Interception
  import opened Objects
  import opened Decoration

  /** Behaviour the model does not see: user functions called as methods and as hooks. */
  datatype Env = Env(
    call: (Value, Value, seq<Value>) -> Outcome,
    onParams: (Value, ParamsPayload) -> Completion<seq<Value>>,
    onSuccess: (Value, SuccessPayload) -> Completion<Value>,
    onError: (Value, ErrorPayload) -> Completion<Value>,
    /** the TypeError the host throws when a non-function is called */
    typeError: Value)

  /** Calling the hook value `h` as `config.onParams(payload)`. */
  function ParamsHookOf(env: Env, h: Value): (f: ParamsPayload -> Completion<seq<Value>>)
    ensures h == Native(PassParams) ==> forall p :: f(p) == KeepParams(p)
    ensures !IsCallable(h) ==> forall p :: f(p) == Abrupt(env.typeError)
  {
    p => if h == Native(PassParams) then KeepParams(p)
         else if IsCallable(h) then env.onParams(h, p)
         else Abrupt(env.typeError)
  }

  /** Calling the hook value `h` as `config.onSuccess(payload)`. */
  function SuccessHookOf(env: Env, h: Value): (f: SuccessPayload -> Completion<Value>)
    ensures h == Native(PassResult) ==> forall p :: f(p) == KeepResult(p)
    ensures !IsCallable(h) ==> forall p :: f(p) == Abrupt(env.typeError)
  {
    p => if h == Native(PassResult) then KeepResult(p)
         else if IsCallable(h) then env.onSuccess(h, p)
         else Abrupt(env.typeError)
  }

  /** Calling the hook value `h` as `config.onError(payload)`; `console.error` logs and returns undefined. */
  function ErrorHookOf(env: Env, h: Value): (f: ErrorPayload -> Completion<Value>)
    ensures h == Native(ConsoleError) ==> forall p :: f(p) == Normal(Undefined)
    ensures !IsCallable(h) ==> forall p :: f(p) == Abrupt(env.typeError)
  {
    p => if h == Native(ConsoleError) then Normal(Undefined)
         else if IsCallable(h) then env.onError(h, p)
         else Abrupt(env.typeError)
  }

  /** The behaviour of a symbolic config. */
  function Resolve(env: Env, cfg: Config): (h: Hooks)
    ensures h.chronicle == cfg.chronicle
    ensures cfg.onParams == Native(PassParams) ==> forall p :: h.onParams(p) == Normal(p.params)
    ensures cfg.onSuccess == Native(PassResult) ==> forall p :: h.onSuccess(p) == Normal(p.result)
    ensures cfg.onError == Native(ConsoleError) ==> forall p :: h.onError(p) == Normal(Undefined)
  {
    Hooks(ParamsHookOf(env, cfg.onParams), SuccessHookOf(env, cfg.onSuccess), ErrorHookOf(env, cfg.onError), cfg.chronicle)
  }

  /** What the per-member config does when the wrapper calls it: without `before_m` the
      arguments pass through, with it the bag's value is called on the payload (a TypeError if it
      is not a function); likewise `after_m` for the result. Errors go to `console.error`, and a
      member with neither hook gets exactly the default config. */
  lemma MemberHooks(env: Env, bag: Obj, m: string)
    ensures !HasHook(MethodNames(bag), m) ==>
              MemberConfig(bag, m) == Config(Native(PassParams), Native(PassResult), Native(ConsoleError), Get(bag, "_chronicle"))
    ensures var h, before, after := Resolve(env, MemberConfig(bag, m)), Get(bag, "before_" + m), Get(bag, "after_" + m);
            && h.chronicle == Get(bag, "_chronicle")
            && (forall p :: h.onError(p) == Normal(Undefined))
            && ("before_" + m !in MethodNames(bag) ==> forall p :: h.onParams(p) == Normal(p.params))
            && ("before_" + m in MethodNames(bag) && IsCallable(before) && before != Native(PassParams) ==>
                  forall p :: h.onParams(p) == env.onParams(before, p))
            && ("before_" + m in MethodNames(bag) && !IsCallable(before) ==> forall p :: h.onParams(p) == Abrupt(env.typeError))
            && ("after_" + m !in MethodNames(bag) ==> forall p :: h.onSuccess(p) == Normal(p.result))
            && ("after_" + m in MethodNames(bag) && IsCallable(after) && after != Native(PassResult) ==>
                  forall p :: h.onSuccess(p) == env.onSuccess(after, p))
            && ("after_" + m in MethodNames(bag) && !IsCallable(after) ==> forall p :: h.onSuccess(p) == Abrupt(env.typeError))
  {
  }

  /** What a callable target's own config does: a falsy `before_default` / `after_default` falls
      back to passing through, a truthy one is called on the payload (a TypeError if it is not a
      function). Errors go to `console.error`. */
  lemma CallableHooks(env: Env, bag: Obj)
    ensures var h, before, after := Resolve(env, CallableConfig(bag)), Get(bag, "before_default"), Get(bag, "after_default");
            && h.chronicle == Get(bag, "_chronicle")
            && (forall p :: h.onError(p) == Normal(Undefined))
            && (!Truthy(before) ==> forall p :: h.onParams(p) == Normal(p.params))
            && (IsCallable(before) && before != Native(PassParams) ==> forall p :: h.onParams(p) == env.onParams(before, p))
            && (Truthy(before) && !IsCallable(before) ==> forall p :: h.onParams(p) == Abrupt(env.typeError))
            && (!Truthy(after) ==> forall p :: h.onSuccess(p) == Normal(p.result))
            && (IsCallable(after) && after != Native(PassResult) ==> forall p :: h.onSuccess(p) == env.onSuccess(after, p))
            && (Truthy(after) && !IsCallable(after) ==> forall p :: h.onSuccess(p) == Abrupt(env.typeError))
  {
  }

  /** Calling `v` with receiver `context` and arguments `args`. The trace is that of the outermost
      wrapper, empty when `v` is not a wrapper. */
  function Apply(env: Env, v: Value, context: Value, args: seq<Value>): Call
    decreases v, 0
  {
    match v
    case Wrapper(w, n, cfg) => Invoke(CalleeOf(env, w), n, Resolve(env, cfg), context, args)
    case _ => Call([], if IsCallable(v) then env.call(v, context, args) else Threw(env.typeError))
  }

  /** `method?.apply(this, params)`: nothing for a nullish method, else a call of it. */
  function CalleeOf(env: Env, w: Value): Option<Method>
    decreases w, 1
  {
    if Nullish(w) then None else Some((c, a) => Apply(env, w, c, a).outcome)
  }

  /** A wrapper with the pass-through hooks and the default error reporter is a drop-in
      replacement: a result that is not a failure comes back unchanged, a synchronous throw
      becomes undefined and a rejection becomes a fulfilment with undefined. */
  lemma DefaultWrapperTransparent(env: Env, w: Value, n: Option<string>, chronicle: Value, context: Value, args: seq<Value>)
    requires !Nullish(w)
    ensures var o := Apply(env, w, context, args).outcome;
            var c := Apply(env, Wrapper(w, n, Config(Native(PassParams), Native(PassResult), Native(ConsoleError), chronicle)), context, args);
            && c.trace[1] == Invoked(context, args)
            && (!Escapes(o) ==> c.outcome == o)
            && (o.Threw? ==> c.outcome == Returned(Undefined))
            && (o.Deferred? && o.settlement.Rejected? ==> c.outcome == Deferred(Fulfilled(Undefined)))
  {
  }

  /** Every wrapper the engine builds reports errors through `console.error`; such a wrapper never
      throws or rejects unless its `onParams` hook throws. */
  lemma DefaultErrorAbsorbed(env: Env, w: Value, n: Option<string>, cfg: Config, context: Value, args: seq<Value>)
    requires cfg.onError == Native(ConsoleError)
    requires Resolve(env, cfg).onParams(ParamsPayload(args, context, n, cfg.chronicle)).Normal?
    ensures !Escapes(Apply(env, Wrapper(w, n, cfg), context, args).outcome)
  {
    ErrorsAbsorbed(CalleeOf(env, w), n, Resolve(env, cfg), context, args);
  }

  /** A wrapped member of an object target calls, in order, its `before_m` hook (or passes the
      arguments through), the original member on the result, then `after_m` (or passes the result
      through); a failure of the member is absorbed. */
  lemma InstanceMemberCall(realm: Realm, target: Obj, bag: Obj, d: Obj, m: string, env: Env, context: Value, args: seq<Value>)
    requires !IsCallable(target.self)
    requires Inject(target, bag) == Ok(d) && Decorate(realm, target, bag).Ok?
    requires m in MethodNames(d) && HasHook(MethodNames(bag), m)
    ensures var o' := Decorate(realm, target, bag).value;
            var cfg := MemberConfig(bag, m);
            var c := Apply(env, Get(o', m), context, args);
            && Get(o', m) == Wrapper(Get(d, m), Some(m), cfg)
            && c == Invoke(CalleeOf(env, Get(d, m)), Some(m), Resolve(env, cfg), context, args)
            && c.trace[0] == ParamsHook(ParamsPayload(args, context, Some(m), Get(bag, "_chronicle")))
            && ("before_" + m !in MethodNames(bag) && !Nullish(Get(d, m)) ==> c.trace[1] == Invoked(context, args))
            && ("before_" + m !in MethodNames(bag) ==> !Escapes(c.outcome))
  {
    InstanceWrapReads(d, bag, m);
    MemberCall(env, Get(d, m), m, MemberConfig(bag, m), "before_" + m !in MethodNames(bag), context, args);
  }

  /** Calling a member wrapper: its trace starts with `onParams` on the caller's arguments; with the
      pass-through `onParams` the member runs on those arguments and nothing escapes. */
  lemma MemberCall(env: Env, w: Value, m: string, cfg: Config, passes: bool, context: Value, args: seq<Value>)
    requires cfg.onError == Native(ConsoleError)
    requires passes ==> cfg.onParams == Native(PassParams)
    ensures var c := Apply(env, Wrapper(w, Some(m), cfg), context, args);
            && c == Invoke(CalleeOf(env, w), Some(m), Resolve(env, cfg), context, args)
            && c.trace[0] == ParamsHook(ParamsPayload(args, context, Some(m), cfg.chronicle))
            && (passes && !Nullish(w) ==> c.trace[1] == Invoked(context, args))
            && (passes ==> !Escapes(c.outcome))
  {
    if passes {
      DefaultErrorAbsorbed(env, w, Some(m), cfg, context, args);
    }
  }

  /** A decorated callable runs `before_default` (or passes the arguments through), the original
      function, then `after_default` (or passes the result through), under the member name
      undefined; with neither hook it behaves as the original on every result that is not a failure. */
  lemma CallableCall(realm: Realm, target: Obj, bag: Obj, env: Env, context: Value, args: seq<Value>)
    requires IsCallable(target.self) && Decorate(realm, target, bag).Ok?
    ensures var c := Apply(env, Decorate(realm, target, bag).value.self, context, args);
            && c == Invoke(CalleeOf(env, target.self), None, Resolve(env, CallableConfig(bag)), context, args)
            && c.trace[0] == ParamsHook(ParamsPayload(args, context, None, Get(bag, "_chronicle")))
            && (!Truthy(Get(bag, "before_default")) ==> c.trace[1] == Invoked(context, args))
            && (!Truthy(Get(bag, "before_default")) && !Truthy(Get(bag, "after_default")) ==>
                  var o := Apply(env, target.self, context, args).outcome;
                  !Escapes(o) ==> c.outcome == o)
  {
    DecorateSpec(realm, target, bag);
    if !Truthy(Get(bag, "before_default")) && !Truthy(Get(bag, "after_default")) {
      DefaultWrapperTransparent(env, target.self, None, Get(bag, "_chronicle"), context, args);
    }
  }
}
