# Hook injection for classes and functions (decorators.js)

This project models the hook-injection engine of `src/decorators.js` in Dafny:

- **Member introspection.** `deepFunctions`, `distinctDeepFunctions` and `getMethodNames` walk an object's prototype chain. They collect the names whose property is a function or a getter, stop at `Object.prototype`, remove duplicates and hide `constructor` and names that start with `_`.
- **Decoration.** `decorate(target, methods)` first copies the bag's non-hook members onto the object it returns, the *injection*: the target itself when it is an object, the fresh function wrapper when it is callable. It then wraps every member `m` that has a `before_m` or `after_m` hook. An object target is changed in place with `Object.defineProperty`, through `getMethodDescriptor` and `classMethodDecorator`. A callable target is replaced by a fresh function wrapper, whose members are assigned wrappers of the target's members.
- **The call wrapper.** `functionDecorator` runs `onParams`, then the wrapped method on the parameters it returned. On the result it runs `onSuccess`; on a failure it runs `onError`. A returned promise goes through `.then`/`.catch`.

The model is pure. It uses these modules:

| module | contents |
|---|---|
| `JsValues` | Symbolic JavaScript values. A wrapper built by the engine is the term `Wrapper(method, name, config)`. The three built-in hooks (`_onParams`, `_onSuccess`, `console.error`) are constants. |
| `Seqs` | Order-preserving filter, first-occurrence deduplication (`[...new Set(xs)]`) and `String.prototype.includes`. |
| `Introspect` | A prototype chain is a sequence of levels. Each level lists its own names with the kind the type checks give them, and carries a marker for `Object.prototype`. |
| `Objects` | Objects with own property lists, data and accessor descriptors, and prototype chains. Covers property reads, strict-mode assignment and `Object.defineProperty` with the descriptor `classMethodDecorator` returns. The TypeErrors these throw are `Result.Failed`. |
| `Interception` | One call of a wrapper, as a function from the method's behaviour, the hooks, `this` and the arguments to a trace and an outcome. The trace lists the hook invocations and the method invocation in order. The outcome is a value, a synchronous throw, or a deferred value with its settlement. |
| `Decoration` | `decorate` itself, built from the `Objects` operations. |
| `Semantics` | Gives wrapper values their call behaviour. Everything else a program can call (user methods and user hooks) is a parameter, `Env`. |

## Model

| member | source | states |
|---|---|---|
| Seqs.Distinct | src/decorators.js:11 | `[...new Set(xs)]` has no duplicates, contains exactly the elements of `xs`, and lists them in the order of their first occurrence in `xs`. |
| Seqs.Filter | src/decorators.js:13 | An array filter keeps exactly the elements satisfying the predicate. It never grows the input, and on duplicate-free input it keeps their relative order. |
| Seqs.ContainsAt | src/decorators.js:65 | `name.includes(sub)` holds whenever `sub` occurs in `name` at some position. |
| Seqs.ContainsWitness | src/decorators.js:65 | Conversely, when `name.includes(sub)` holds, `sub` occurs in `name` at an explicit position. |
| Introspect.InvocableNames | src/decorators.js:7-8 | The own names kept from one level are exactly those whose property is a getter or a function. |
| Introspect.InvocableNamesOrder | src/decorators.js:7-8 | The filter keeps a level's own names in their listed order: filtering a concatenation concatenates the filtered parts, and a single name is kept exactly when it is a getter or a function. |
| Introspect.Reach | src/decorators.js:5-6 | The walk visits levels up to the first one that is `Object.prototype`, or up to the end of the chain (null). |
| Introspect.DeepFunctionsMembers | src/decorators.js:5-9 | A name is in `deepFunctions(x)` exactly when some visited level declares it as a getter or a function. |
| Introspect.MethodNamesSpec | src/decorators.js:11-13 | `getMethodNames(x)` has no duplicates and never contains `constructor` or a name starting with `_`. A name is in it exactly when it is visible and declared as a function or getter below `Object.prototype`. Names appear in the order `deepFunctions` first meets them. |
| Introspect.DeepFunctionsLevelOrder | src/decorators.js:7-9 | `deepFunctions` lists a name first declared on a nearer level before a name first declared further up the chain. |
| Introspect.MethodNamesLevelOrder | src/decorators.js:11-13 | `getMethodNames` lists the object's own names before inherited ones, and a nearer prototype's names before a farther one's. |
| Objects.Assign | src/decorators.js:66 | `o[n] = v` throws exactly when the property it hits is read-only or an accessor without a setter. If no setter takes the assignment, `o[n]` then reads `v`. Identity, prototypes and every other own property stay. A setter that does take it is assumed to return normally: exceptions thrown by setters are not modelled. |
| Objects.AssignAllSpec | src/decorators.js:64-67 | A run of assignments to distinct names throws exactly when one of them would throw on the original object. Otherwise each name no setter took holds its value with its original flags (new properties are writable, enumerable and configurable). Other own properties and existing positions are untouched. |
| Objects.AssignAllReads | src/decorators.js:66 | After the injection loop, an injected name no setter intercepted reads as the value written. |
| Objects.Define | src/decorators.js:15-36 | Redefining `n` throws exactly when `target.hasOwnProperty` does not read as a function, or its own property is an accessor, or is non-writable and non-configurable. Otherwise `n` reads as a wrapper around its previous value and is a data property. An own property keeps its writable, enumerable and configurable flags; an inherited one becomes own with all three set. Nothing else changes. |
| Objects.NullPrototypeUndefinable | src/decorators.js:15-18 | On an object without prototypes and without an own `hasOwnProperty`, `getMethodDescriptor` throws a TypeError for every name. |
| Objects.DefineAllSpec | src/decorators.js:84-97 | Redefining distinct names throws exactly when one name is undefinable on the original object (including when `hasOwnProperty` is not a function there). Otherwise each name holds the wrapper built from its original value and flags, and every other own property is untouched. |
| Interception.Absorb | src/decorators.js:121-127 | `onError` runs once on the error. A synchronous call then returns undefined; a deferred one resolves to the hook's value. The caller sees a failure exactly when `onError` throws, and what it sees is `onError`'s own error, thrown or as the rejection reason. |
| Interception.Succeed | src/decorators.js:118-124 | `onSuccess` runs on the result. A throw from it reaches `onError`, never the other order. The outcome keeps the sync/deferred mode and fails only if that `onError` throws. |
| Interception.Settle | src/decorators.js:114-127 | After the method, at most one `onSuccess` and then at most one `onError` run. A deferred result stays deferred, a never-settling promise runs no hook, and a failure escapes only through a throwing `onError`. |
| Interception.Invoke | src/decorators.js:104-128 | `onParams` runs first and exactly once on `{ params: args, context, method, chronicle }`. If it throws, nothing else runs and the throw propagates. Otherwise the method (if not nullish) runs once, right after, on `onParams`' result, followed only by the result hooks. A nullish method is not called: `onSuccess` runs next, on the result undefined. |
| Interception.EscapeIff | src/decorators.js:110-128 | A call throws or rejects exactly when `onParams` threw, or when the last hook that ran was `onError` and it threw. |
| Interception.ErrorsAbsorbed | src/decorators.js:114-127 | With an `onError` that returns, a call never throws or rejects unless `onParams` throws. |
| Interception.SyncSuccess | src/decorators.js:111-124 | A synchronous result `v` yields the trace onParams, method, onSuccess(`{ result: v, rawParams, params, context, method, chronicle }`) and returns `onSuccess`'s value. |
| Interception.SyncFailure | src/decorators.js:125-127 | A synchronous throw `e` yields the trace onParams, method, onError(`{ error: e, ... }`) and returns undefined. |
| Interception.SuccessHookThrows | src/decorators.js:114-127 | A throw from `onSuccess` is handed to `onError`, so both run. The call returns undefined, or for a promise resolves to `onError`'s value. |
| Interception.AsyncSuccess | src/decorators.js:118-120 | A promise fulfilled with `v` yields the trace onParams, method, onSuccess(`{ result: v, ... }`), and the wrapper's promise is fulfilled with `onSuccess`'s value. |
| Interception.RejectionResolves | src/decorators.js:118-122 | A rejected promise becomes a promise fulfilled with `onError`'s value. |
| Interception.ParamsHookThrows | src/decorators.js:111 | A throw from `onParams` propagates to the caller, and neither the method nor any other hook runs. |
| Interception.SyncAsyncUniform | src/decorators.js:118-124 | A value returned directly and the same value delivered by a promise produce the same trace. `onSuccess`'s value is returned directly in one case and becomes the fulfilment value in the other. |
| Interception.PassThroughTransparent | src/decorators.js:38-44 | With `_onParams` and `_onSuccess`, the method receives the caller's arguments, and every result that is not a failure comes back unchanged. |
| Decoration.InjectNames | src/decorators.js:62-65 | The injected names are exactly the bag's method names containing neither `before_` nor `after_`. No `before_m`/`after_m` hook is ever injected, and the names stay distinct. |
| Decoration.InjectSpec | src/decorators.js:64-67 | Injection throws exactly when the target refuses one injected name. Otherwise each injected name no setter took reads as `methods[name]`, and all other own properties, identity and prototypes stay. |
| Decoration.FunctionMembers | src/decorators.js:69-74 | A callable target's wrapped members are exactly its method names that are not `caller`/`arguments` and have a hook, each listed once. |
| Decoration.InstanceMembers | src/decorators.js:69-74 | An object target's wrapped members are exactly its method names after injection that have a hook, each listed once. |
| Decoration.InstanceWrapFails | src/decorators.js:84-97 | On an object target, wrapping throws exactly when `hasOwnProperty` does not read as a function on it (with a member to wrap), or a member to wrap is an own accessor or an own non-writable, non-configurable data property. |
| Decoration.InstanceWrapSpec | src/decorators.js:84-97 | On an object target, exactly the hooked members are redefined, each as a wrapper around its previous value under its own config. Every other own property is unchanged. |
| Decoration.InstanceWrapReads | src/decorators.js:28-36 | A wrapped member of an object target reads as `functionDecorator(previous value, { methodName: m, config })`. |
| Decoration.FunctionWrapFails | src/decorators.js:81-82 | On a callable target, wrapping throws exactly when the fresh function refuses the assignment of a member to wrap. |
| Decoration.FunctionWrapReads | src/decorators.js:82 | On a callable target, a wrapped member no setter intercepts reads as `functionDecorator(target[m], { methodName: m, config })`. |
| Decoration.FunctionWrapKeeps | src/decorators.js:73 | On a callable target, members not wrapped, `caller` and `arguments` included, keep their own properties. |
| Decoration.DecorateCallable | src/decorators.js:47-102 | For a callable target, set-up throws exactly when the fresh wrapper refuses an injected name or the injected wrapper refuses a member to wrap. Otherwise the result is a new function wrapping the target under the config from `before_default`/`after_default`. Each hooked member of the target that no setter takes reads as `functionDecorator(target[m], { methodName: m, config })`, and each injected name that is not wrapped and not taken by a setter reads as `methods[n]`. Every other own property is the fresh function's own, as the host creates it, so the target's un-hooked static members are not carried over. |
| Decoration.DecorateObject | src/decorators.js:47-102 | For an object target, set-up throws exactly when the target refuses an injected name or a member to wrap is undefinable after injection. Otherwise each hooked member reads as a wrapper around what it read after injection, and each injected name that is not wrapped and not taken by a setter reads as `methods[n]`. |
| Decoration.DecorateSpec | src/decorators.js:47-102 | A callable target yields a new function wrapping it with the config built from `before_default`/`after_default`, under the host's function prototypes. An object target keeps its identity and prototypes, and a name neither injected nor hooked keeps its own property. |
| Semantics.Resolve | src/decorators.js:38-53 | The config's `_onParams` passes the params through, `_onSuccess` passes the result through, and `console.error` returns undefined. |
| Semantics.MemberHooks | src/decorators.js:70-79 | When a member's wrapper runs, a `before_m` that is not a bag method lets the arguments through unchanged. A bag `before_m` is called on the payload, and is a TypeError if it is not a function. The same holds for `after_m` and the result. Errors are only reported (undefined), the chronicle is `methods._chronicle`, and a member with neither hook gets exactly the default config. |
| Semantics.CallableHooks | src/decorators.js:50-60 | When a callable target's own wrapper runs, a falsy `before_default` lets the arguments through unchanged. A truthy one is called on the payload, and is a TypeError if it is not a function. The same holds for `after_default` and the result. Errors are only reported, and the chronicle is `methods._chronicle`. |
| Semantics.DefaultWrapperTransparent | src/decorators.js:55-60 | A callable target decorated without `before_default`/`after_default` behaves as the target on every result that is not a failure. A synchronous throw becomes undefined and a rejection becomes a fulfilment with undefined. |
| Semantics.DefaultErrorAbsorbed | src/decorators.js:50-53 | Because every engine-built wrapper reports through `console.error`, it never throws or rejects unless its `onParams` throws. |
| Semantics.InstanceMemberCall | src/decorators.js:75-97 | Calling a decorated member of an object target runs its wrapper: `onParams` first with the member's name and chronicle. Without a `before_m` hook the original member runs on the caller's arguments, and no failure escapes. |
| Semantics.CallableCall | src/decorators.js:55-60 | Calling a decorated callable runs its wrapper with no member name. Without `before_default` the original runs on the caller's arguments. With neither default hook, every result that is not a failure is the original's. |

## Behaviour notes

The code behaves as follows; each point is easy to misread:

- `onParams` is called outside the `try`. A throw from it reaches the caller, and `onError` is not called.
- A rejected promise is caught by `.catch(error => config.onError(...))`. The resulting promise is fulfilled with whatever `onError` returns, not with undefined.
- `onSuccess` is called inside the `try`, or upstream of `.catch`. If it throws, `onError` runs as well, so both result hooks can run for one call.
- Injection excludes bag names by a substring test (`includes('before_')`), not by prefix. Hooks are matched by exact name.
- Only bag members that are functions or getters, and that are visible to `getMethodNames`, are injected.
- A callable target is replaced by a new function. Only the target's hooked members (as wrappers) and the bag's injected members appear on it; the target's other static members are not carried over.

## Left out

- `src/checkType.js` (`isPromise`, `isFunction`, `isGetter`) is not part of this model. A level records the kind each name would be given, `IsCallable` stands for `isFunction`, and a method's outcome says directly whether it returned a promise.
- Side effects of getters and setters are not modelled. A getter reads as a fixed value. An assignment a setter takes leaves the own properties unchanged and never throws, so exceptions from setters (for example the throwing `caller`/`arguments` setters of `Function.prototype` in strict mode) are not modelled.
- An object's own property list is taken to hold each name at most once, as property keys are unique. The model does not enforce this as an invariant: on a list with a repeated name, the introspector would see both entries while reads and writes use the first.
- Non-extensible, sealed and frozen objects, proxies and symbol-keyed properties are not modelled. Every object accepts new own properties.
- The own-name order of `Object.getOwnPropertyNames`, with integer-like keys first, is not modelled: each level's order is taken as given.
- Passing `Object.prototype` itself as target or bag is not modelled. `deepFunctions` would then return `false`, and `new Set(false)` in `distinctDeepFunctions` throws a TypeError. The object's own level is never marked as `Object.prototype`.
- An ordinary object's chain is expected to list the properties of `Object.prototype`, `hasOwnProperty` included, in its root level, so that `target.hasOwnProperty` reads as a function.
- Objects.Define: a `hasOwnProperty` that reads as a user function is taken to answer as the built-in one does; a user override that answers differently is not modelled.
- A `null` or `undefined` target or method bag is not modelled; both are objects here. A nullish bag throws when `methods._chronicle` is read. A nullish target is returned unchanged when the bag has nothing to inject, and otherwise throws at the first injecting assignment.
- The properties and prototypes of a freshly created function come from the host. They are a parameter, `Realm`.
- The printing done by `console.error` is I/O and is left out: it is modelled as a hook that returns undefined.
- The receiver (`this`) that hooks are called with, the config object, is not modelled. User hooks are given only their payload.
- An `onParams` result that is not an array is not modelled. `apply` would convert it, or throw; here `onParams` returns a parameter list.
- An `onSuccess` inside `.then`, or an `onError` inside `.catch`, that returns a promise is not modelled. That promise would be adopted; here the hook's value is the fulfilment value.
- When deferred hooks run relative to other code (the microtask queue) is not modelled. Only their order within one call is.
- Semantics.InstanceMemberCall: it states the call's protocol and absorption for members without a `before_m` hook. With a user `before_m` hook it states only the first trace event and the equation with `Interception.Invoke`, because that hook's behaviour is a parameter.
