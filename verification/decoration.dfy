/**
 `decorate(target, methods)` of src/decorators.js.

 The method bag is an object like any other: its invocable names come from
 `getMethodNames(methods)`, and a hook is whatever `methods[name]` reads.
 For a callable target the result is a fresh function; the host decides its
 own properties and prototype chain, which the model takes as a `Realm`.
 */
module Decoration {
  import opened JsValues
  import opened Seqs
  import opened Objects
  import Introspect

  /** The own properties and prototype chain the host gives a freshly created function. */
  datatype Realm = Realm(functionOwn: seq<Property>, functionProtos: seq<Frame>)

  /** Members of a callable target that are never wrapped (`[ 'caller', 'caller', 'arguments' ]`). */
  const Reserved: set<string> := {"caller", "arguments"}

  /** The injection filter `name.includes('before_') || name.includes('after_')`. */
  predicate HookLike(n: string)
  {
    Contains(n, "before_") || Contains(n, "after_")
  }

  /** The bag names copied onto the decorated target. A hook name never is. */
  function InjectNames(bagNames: seq<string>): (r: seq<string>)
    ensures forall n :: n in r <==> n in bagNames && !Contains(n, "before_") && !Contains(n, "after_")
    ensures forall m :: "before_" + m !in r && "after_" + m !in r
    ensures NoDup(bagNames) ==> NoDup(r)
  {
    Filter(n => !HookLike(n), bagNames)
  }

  /** The assignments `decorated[name] = methods[name]` of the injection loop. */
  function Injections(bag: Obj): (ws: seq<Write>)
    ensures Names(ws) == InjectNames(MethodNames(bag))
    ensures forall i :: 0 <= i < |ws| ==> ws[i].item == Get(bag, ws[i].name)
  {
    var names := InjectNames(MethodNames(bag));
    var ws := seq(|names|, i requires 0 <= i < |names| => Entry(names[i], Get(bag, names[i])));
    assert Names(ws) == names;
    ws
  }

  function Inject(o: Obj, bag: Obj): Result<Obj>
  {
    AssignAll(o, Injections(bag))
  }

  /** The bag names the hook lookup matches exactly: `before_m` or `after_m`. */
  predicate HasHook(bagNames: seq<string>, m: string)
  {
    "before_" + m in bagNames || "after_" + m in bagNames
  }

  /** The per-member config: the matching hooks or the pass-through defaults, with
      `onError: console.error` and `chronicle: methods._chronicle`. */
  function MemberConfig(bag: Obj, m: string): (c: Config)
    ensures c.onError == Native(ConsoleError) && c.chronicle == Get(bag, "_chronicle")
    ensures "before_" + m in MethodNames(bag) ==> c.onParams == Get(bag, "before_" + m)
    ensures "before_" + m !in MethodNames(bag) ==> c.onParams == Native(PassParams)
    ensures "after_" + m in MethodNames(bag) ==> c.onSuccess == Get(bag, "after_" + m)
    ensures "after_" + m !in MethodNames(bag) ==> c.onSuccess == Native(PassResult)
  {
    var names := MethodNames(bag);
    Config(
      if "before_" + m in names then Get(bag, "before_" + m) else Native(PassParams),
      if "after_" + m in names then Get(bag, "after_" + m) else Native(PassResult),
      Native(ConsoleError),
      Get(bag, "_chronicle"))
  }

  /** The config of a callable target's own wrapper: `methods.before_default || _onParams`,
      `methods.after_default || _onSuccess`, plus the default config. */
  function CallableConfig(bag: Obj): (c: Config)
    ensures c.onError == Native(ConsoleError) && c.chronicle == Get(bag, "_chronicle")
    ensures Truthy(c.onParams) && Truthy(c.onSuccess)
    ensures c.onParams == Get(bag, "before_default") || (!Truthy(Get(bag, "before_default")) && c.onParams == Native(PassParams))
    ensures c.onSuccess == Get(bag, "after_default") || (!Truthy(Get(bag, "after_default")) && c.onSuccess == Native(PassResult))
  {
    var before, after := Get(bag, "before_default"), Get(bag, "after_default");
    Config(
      if Truthy(before) then before else Native(PassParams),
      if Truthy(after) then after else Native(PassResult),
      Native(ConsoleError),
      Get(bag, "_chronicle"))
  }

  /** A callable target's members that get wrapped: invocable, not reserved, with a hook. */
  function FunctionMembers(target: Obj, bag: Obj): (r: seq<string>)
    ensures NoDup(r)
    ensures forall m :: m in r <==> m in MethodNames(target) && m !in Reserved && HasHook(MethodNames(bag), m)
  {
    Introspect.MethodNamesSpec(Shape(target));
    var bagNames := MethodNames(bag);
    Filter(m => m !in Reserved && HasHook(bagNames, m), MethodNames(target))
  }

  /** `decorated[m] = functionDecorator(target[m], { methodName: m, config })` for each such member. */
  function FunctionWrites(target: Obj, bag: Obj): (ws: seq<Write>)
    ensures Names(ws) == FunctionMembers(target, bag)
    ensures forall i :: 0 <= i < |ws| ==> ws[i].item == Wrapper(Get(target, ws[i].name), Some(ws[i].name), MemberConfig(bag, ws[i].name))
  {
    var names := FunctionMembers(target, bag);
    var ws := seq(|names|, i requires 0 <= i < |names| =>
                Entry(names[i], Wrapper(Get(target, names[i]), Some(names[i]), MemberConfig(bag, names[i]))));
    assert Names(ws) == names;
    ws
  }

  /** An object target's members that get wrapped: invocable (after injection) and with a hook. */
  function InstanceMembers(d: Obj, bag: Obj): (r: seq<string>)
    ensures NoDup(r)
    ensures forall m :: m in r <==> m in MethodNames(d) && HasHook(MethodNames(bag), m)
  {
    Introspect.MethodNamesSpec(Shape(d));
    var bagNames := MethodNames(bag);
    Filter(m => HasHook(bagNames, m), MethodNames(d))
  }

  function InstanceWraps(d: Obj, bag: Obj): (ws: seq<Wrap>)
    ensures Names(ws) == InstanceMembers(d, bag)
    ensures forall i :: 0 <= i < |ws| ==> ws[i].item == MemberConfig(bag, ws[i].name)
  {
    var names := InstanceMembers(d, bag);
    var ws := seq(|names|, i requires 0 <= i < |names| => Entry(names[i], MemberConfig(bag, names[i])));
    assert Names(ws) == names;
    ws
  }

  /** The fresh function `functionDecorator(target, { config })` returns. */
  function FreshWrapper(realm: Realm, target: Obj, bag: Obj): Obj
  {
    Obj(Wrapper(target.self, None, CallableConfig(bag)), realm.functionOwn, realm.functionProtos)
  }

  /** `decorate(target, methods)`; `Failed` is a TypeError thrown by the set-up itself. */
  function Decorate(realm: Realm, target: Obj, bag: Obj): Result<Obj>
  {
    if IsCallable(target.self) then
      match Inject(FreshWrapper(realm, target, bag), bag)
      case Failed(e) => Failed(e)
      case Ok(d) => AssignAll(d, FunctionWrites(target, bag))
    else
      match Inject(target, bag)
      case Failed(e) => Failed(e)
      case Ok(d) => DefineAll(d, InstanceWraps(d, bag))
  }

  /** Injection copies `methods[n]` verbatim for exactly the bag's invocable, non-hook names, and
      throws exactly when one of those assignments would; nothing else changes. */
  lemma InjectSpec(o: Obj, bag: Obj)
    ensures Inject(o, bag).Failed? <==> exists n :: n in InjectNames(MethodNames(bag)) && Refuses(o, n)
    ensures Inject(o, bag).Ok? ==>
              var d := Inject(o, bag).value;
              && d.self == o.self && d.protos == o.protos
              && (forall n :: n in InjectNames(MethodNames(bag)) && !Intercepted(o, n) ==>
                    Find(d.own, n) == Some(Stored(o, n, Get(bag, n))) && Get(d, n) == Get(bag, n))
              && (forall n :: n !in InjectNames(MethodNames(bag)) || Intercepted(o, n) ==> Find(d.own, n) == Find(o.own, n))
  {
    var ws := Injections(bag);
    InjectionsDistinct(bag);
    AssignAllFailsByName(o, ws);
    if Inject(o, bag).Ok? {
      var d := Inject(o, bag).value;
      AssignAllFrame(o, ws);
      forall n | n in InjectNames(MethodNames(bag))
        ensures !Intercepted(o, n) ==> Find(d.own, n) == Some(Stored(o, n, Get(bag, n))) && Get(d, n) == Get(bag, n)
        ensures Intercepted(o, n) ==> Find(d.own, n) == Find(o.own, n)
      {
        InjectWrites(o, bag, n);
        if !Intercepted(o, n) {
          StoredReads(d, o, n, Get(bag, n));
        }
      }
    }
  }

  /** The injected names are distinct, as `getMethodNames` lists each name once. */
  lemma InjectionsDistinct(bag: Obj)
    ensures NoDup(Names(Injections(bag)))
  {
    Introspect.MethodNamesSpec(Shape(bag));
  }

  /** What injection leaves as the own property of one injected name. */
  lemma InjectWrites(o: Obj, bag: Obj, n: string)
    requires Inject(o, bag).Ok? && n in InjectNames(MethodNames(bag))
    ensures Find(Inject(o, bag).value.own, n) == if Intercepted(o, n) then Find(o.own, n) else Some(Stored(o, n, Get(bag, n)))
  {
    var ws := Injections(bag);
    var names := InjectNames(MethodNames(bag));
    InjectionsDistinct(bag);
    AssignAllStores(o, ws);
    var i :| 0 <= i < |names| && names[i] == n;
    assert ws[i].name == n && ws[i].item == Get(bag, n);
  }

  /** Reading a property whose own descriptor is `Stored(o, n, v)` yields `v`. */
  lemma StoredReads(d: Obj, o: Obj, n: string, v: Value)
    requires Find(d.own, n) == Some(Stored(o, n, v))
    ensures Get(d, n) == v
  {
  }

  /** On an object target, the wrapping loop throws exactly when a member to wrap is undefinable:
      `target.hasOwnProperty` is not a function, or the member is an own accessor or an own
      non-configurable, non-writable data property. */
  lemma InstanceWrapFails(d: Obj, bag: Obj)
    ensures DefineAll(d, InstanceWraps(d, bag)).Failed? <==> exists m :: m in InstanceMembers(d, bag) && Undefinable(d, m)
  {
    DefineAllFailsByName(d, InstanceWraps(d, bag));
  }

  /** On an object target, the wrapping loop rewrites exactly the invocable members that have a
      `before_`/`after_` hook: an own data property keeps its flags, an inherited member becomes
      an own data property that is writable, enumerable and configurable, and in both cases the
      value is a wrapper around what the member read before. All other members are unchanged. */
  lemma InstanceWrapSpec(d: Obj, bag: Obj)
    requires DefineAll(d, InstanceWraps(d, bag)).Ok?
    ensures var o' := DefineAll(d, InstanceWraps(d, bag)).value;
            && o'.self == d.self && o'.protos == d.protos
            && (forall m :: m in InstanceMembers(d, bag) ==> Find(o'.own, m) == Some(Rewrapped(d, m, MemberConfig(bag, m))))
            && (forall m :: m !in InstanceMembers(d, bag) ==> Find(o'.own, m) == Find(d.own, m))
  {
    var ws := InstanceWraps(d, bag);
    DefineAllFrame(d, ws);
    forall m | m in InstanceMembers(d, bag) ensures Find(DefineAll(d, ws).value.own, m) == Some(Rewrapped(d, m, MemberConfig(bag, m))) {
      InstanceWrapOne(d, bag, m);
    }
  }

  lemma InstanceWrapOne(d: Obj, bag: Obj, m: string)
    requires DefineAll(d, InstanceWraps(d, bag)).Ok? && m in InstanceMembers(d, bag)
    ensures Find(DefineAll(d, InstanceWraps(d, bag)).value.own, m) == Some(Rewrapped(d, m, MemberConfig(bag, m)))
  {
    var ws := InstanceWraps(d, bag);
    var names := InstanceMembers(d, bag);
    var i :| 0 <= i < |names| && names[i] == m;
    assert ws[i].name == m && ws[i].item == MemberConfig(bag, m);
    DefineAllRewraps(d, ws);
    var o' := DefineAll(d, ws).value;
    assert Find(o'.own, ws[i].name) == Some(Rewrapped(d, ws[i].name, ws[i].item));
  }

  /** On an object target, a wrapped member reads as a wrapper around what it read after injection,
      named after the member and configured with its hooks. */
  lemma InstanceWrapReads(d: Obj, bag: Obj, m: string)
    requires DefineAll(d, InstanceWraps(d, bag)).Ok? && m in InstanceMembers(d, bag)
    ensures Get(DefineAll(d, InstanceWraps(d, bag)).value, m) == Wrapper(Get(d, m), Some(m), MemberConfig(bag, m))
  {
    InstanceWrapSpec(d, bag);
  }

  /** On a callable target, the wrapping loop throws exactly when the fresh function refuses
      the assignment of one of the members to wrap. */
  lemma FunctionWrapFails(d: Obj, target: Obj, bag: Obj)
    ensures AssignAll(d, FunctionWrites(target, bag)).Failed? <==> exists m :: m in FunctionMembers(target, bag) && Refuses(d, m)
  {
    AssignAllFailsByName(d, FunctionWrites(target, bag));
  }

  /** On a callable target, the wrapping loop assigns `functionDecorator(target[m], ...)` to each
      invocable member `m` that has a hook and is not `caller` or `arguments`, unless a setter on
      the fresh function takes the assignment. */
  lemma FunctionWrapReads(d: Obj, target: Obj, bag: Obj, m: string)
    requires AssignAll(d, FunctionWrites(target, bag)).Ok?
    requires m in FunctionMembers(target, bag) && !Intercepted(d, m)
    ensures Get(AssignAll(d, FunctionWrites(target, bag)).value, m) == Wrapper(Get(target, m), Some(m), MemberConfig(bag, m))
  {
    var ws := FunctionWrites(target, bag);
    var names := FunctionMembers(target, bag);
    var i :| 0 <= i < |names| && names[i] == m;
    assert ws[i].name == m;
    AssignAllReads(d, ws, i);
  }

  /** On a callable target, the wrapping loop leaves every other member, `caller` and `arguments`
      included, as it was. */
  lemma FunctionWrapKeeps(d: Obj, target: Obj, bag: Obj)
    requires AssignAll(d, FunctionWrites(target, bag)).Ok?
    ensures var o' := AssignAll(d, FunctionWrites(target, bag)).value;
            && o'.self == d.self && o'.protos == d.protos
            && (forall m :: m !in FunctionMembers(target, bag) ==> Find(o'.own, m) == Find(d.own, m))
            && (forall m :: m in Reserved ==> Find(o'.own, m) == Find(d.own, m))
  {
    AssignAllSpec(d, FunctionWrites(target, bag));
  }

  /** A callable target: the fresh wrapper function receives the injected members, then a wrapper
      around each hooked member of the target. Set-up throws exactly when the fresh function
      refuses an injected name, or the injected function refuses a member to wrap. */
  lemma DecorateCallable(realm: Realm, target: Obj, bag: Obj)
    requires IsCallable(target.self)
    ensures var f0 := FreshWrapper(realm, target, bag);
            Decorate(realm, target, bag).Failed? <==>
              || (exists n :: n in InjectNames(MethodNames(bag)) && Refuses(f0, n))
              || (Inject(f0, bag).Ok? && exists m :: m in FunctionMembers(target, bag) && Refuses(Inject(f0, bag).value, m))
    ensures var f0 := FreshWrapper(realm, target, bag);
            Decorate(realm, target, bag).Ok? ==>
              var d, r := Inject(f0, bag).value, Decorate(realm, target, bag).value;
              && r.self == Wrapper(target.self, None, CallableConfig(bag))
              && r.protos == realm.functionProtos
              && (forall m :: m in FunctionMembers(target, bag) && !Intercepted(d, m) ==>
                    Get(r, m) == Wrapper(Get(target, m), Some(m), MemberConfig(bag, m)))
              && (forall n :: n in InjectNames(MethodNames(bag)) && n !in FunctionMembers(target, bag) && !Intercepted(f0, n) ==>
                    Get(r, n) == Get(bag, n))
              && (forall k :: k !in InjectNames(MethodNames(bag)) && k !in FunctionMembers(target, bag) ==>
                    Find(r.own, k) == Find(realm.functionOwn, k))
  {
    var f0 := FreshWrapper(realm, target, bag);
    InjectSpec(f0, bag);
    if Inject(f0, bag).Ok? {
      var d := Inject(f0, bag).value;
      FunctionWrapFails(d, target, bag);
      if Decorate(realm, target, bag).Ok? {
        var r := Decorate(realm, target, bag).value;
        FunctionWrapKeeps(d, target, bag);
        forall m | m in FunctionMembers(target, bag) && !Intercepted(d, m)
          ensures Get(r, m) == Wrapper(Get(target, m), Some(m), MemberConfig(bag, m))
        {
          FunctionWrapReads(d, target, bag, m);
        }
        forall n | n in InjectNames(MethodNames(bag)) && n !in FunctionMembers(target, bag) && !Intercepted(f0, n)
          ensures Get(r, n) == Get(bag, n)
        {
          StoredReads(r, f0, n, Get(bag, n));
        }
      }
    }
  }

  /** An object target: the injected members are copied onto it, then each hooked member is
      redefined as a wrapper around what it read after injection. Set-up throws exactly when the
      target refuses an injected name, or a member to wrap is undefinable on the injected object. */
  lemma DecorateObject(realm: Realm, target: Obj, bag: Obj)
    requires !IsCallable(target.self)
    ensures Decorate(realm, target, bag).Failed? <==>
              || (exists n :: n in InjectNames(MethodNames(bag)) && Refuses(target, n))
              || (Inject(target, bag).Ok? && exists m :: m in InstanceMembers(Inject(target, bag).value, bag) && Undefinable(Inject(target, bag).value, m))
    ensures Decorate(realm, target, bag).Ok? ==>
              var d, r := Inject(target, bag).value, Decorate(realm, target, bag).value;
              && (forall m :: m in InstanceMembers(d, bag) ==> Get(r, m) == Wrapper(Get(d, m), Some(m), MemberConfig(bag, m)))
              && (forall n :: n in InjectNames(MethodNames(bag)) && n !in InstanceMembers(d, bag) && !Intercepted(target, n) ==>
                    Get(r, n) == Get(bag, n))
  {
    InjectSpec(target, bag);
    if Inject(target, bag).Ok? {
      var d := Inject(target, bag).value;
      InstanceWrapFails(d, bag);
      if Decorate(realm, target, bag).Ok? {
        var r := Decorate(realm, target, bag).value;
        InstanceWrapSpec(d, bag);
        forall m | m in InstanceMembers(d, bag)
          ensures Get(r, m) == Wrapper(Get(d, m), Some(m), MemberConfig(bag, m))
        {
          InstanceWrapReads(d, bag, m);
        }
        forall n | n in InjectNames(MethodNames(bag)) && n !in InstanceMembers(d, bag) && !Intercepted(target, n)
          ensures Get(r, n) == Get(bag, n)
        {
          StoredReads(r, target, n, Get(bag, n));
        }
      }
    }
  }

  /** A callable target comes back as a new function wrapping it with the hooks `before_default`
      and `after_default` select; the target object itself is not touched. An object target is changed in place: its identity
      and prototype chain stay, and a member keeps its own property unless it is injected or wrapped. */
  lemma DecorateSpec(realm: Realm, target: Obj, bag: Obj)
    ensures IsCallable(target.self) && Decorate(realm, target, bag).Ok? ==>
              && Decorate(realm, target, bag).value.self == Wrapper(target.self, None, CallableConfig(bag))
              && Decorate(realm, target, bag).value.protos == realm.functionProtos
    ensures !IsCallable(target.self) && Decorate(realm, target, bag).Ok? ==>
              var o' := Decorate(realm, target, bag).value;
              && o'.self == target.self && o'.protos == target.protos
              && (forall n :: n !in InjectNames(MethodNames(bag)) && !HasHook(MethodNames(bag), n) ==>
                    Find(o'.own, n) == Find(target.own, n))
  {
    if IsCallable(target.self) {
      var f0 := FreshWrapper(realm, target, bag);
      InjectSpec(f0, bag);
      if Inject(f0, bag).Ok? && Decorate(realm, target, bag).Ok? {
        FunctionWrapKeeps(Inject(f0, bag).value, target, bag);
      }
    } else {
      InjectSpec(target, bag);
      if Inject(target, bag).Ok? && Decorate(realm, target, bag).Ok? {
        InstanceWrapSpec(Inject(target, bag).value, bag);
      }
    }
  }
}
