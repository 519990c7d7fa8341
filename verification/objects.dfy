/**
 The part of the object model the decoration engine touches: own property
 lists with their descriptors, prototype chains, property reads, the
 assignment `o[n] = v` (strict-mode module code) and
 `Object.defineProperty(o, n, descriptor)` with the descriptor
 `classMethodDecorator` builds.
 */
module Objects {
  import opened JsValues
  import opened Seqs
  import Introspect

  datatype Descriptor =
    | DataDesc(value: Value, writable: bool, enumerable: bool, configurable: bool)
      /** `getterValue` is what reading the property produces when it has a getter */
    | AccessorDesc(hasGetter: bool, getterValue: Value, hasSetter: bool, enumerable: bool, configurable: bool)

  datatype Property = Property(name: string, desc: Descriptor)

  /** One prototype object: its own properties in `Object.getOwnPropertyNames` order. */
  datatype Frame = Frame(props: seq<Property>, isRoot: bool)

  /** An object: its identity and call behaviour (`self`), own properties and prototype chain. */
  datatype Obj = Obj(self: Value, own: seq<Property>, protos: seq<Frame>)

  /** Why the engine's own set-up can throw a TypeError out of `decorate`. */
  datatype SetupError =
    | ReadOnly(name: string)           // assignment to a non-writable data property
    | NoSetter(name: string)           // assignment to an accessor without a setter
    | AccessorWithValue(name: string)  // defineProperty with both `get`/`set` and `value`
    | Frozen(name: string)             // defineProperty changing a non-configurable, non-writable value
    | NoHasOwnProperty(name: string)   // `target.hasOwnProperty(name)` where that property is not a function

  datatype Result<+T> = Ok(value: T) | Failed(error: SetupError)

  /** One step of a loop over named members: the name and what the step uses for it. */
  datatype Entry<+T> = Entry(name: string, item: T)

  /** `o[name] = item` */
  type Write = Entry<Value>

  /** Redefine `name` as a wrapper under the config `item`. */
  type Wrap = Entry<Config>

  /** The descriptor of the first property named `n`. */
  function Find(props: seq<Property>, n: string): (r: Option<Descriptor>)
    ensures r.Some? <==> exists k :: 0 <= k < |props| && props[k].name == n
  {
    if |props| == 0 then None
    else if props[0].name == n then Some(props[0].desc)
    else Find(props[1..], n)
  }

  /** Gives `n` the descriptor `d`, in place if `n` is present and appended otherwise. */
  function Put(props: seq<Property>, n: string, d: Descriptor): (r: seq<Property>)
    ensures forall k :: Find(r, k) == if k == n then Some(d) else Find(props, k)
    ensures |props| <= |r| <= |props| + 1
    ensures forall i :: 0 <= i < |props| ==> r[i].name == props[i].name
  {
    if |props| == 0 then [Property(n, d)]
    else if props[0].name == n then [Property(n, d)] + props[1..]
    else [props[0]] + Put(props[1..], n, d)
  }

  /** The descriptor of `n` on the nearest object of the chain that has one. */
  function FindInChain(frames: seq<Frame>, n: string): Option<Descriptor>
  {
    if |frames| == 0 then None
    else match Find(frames[0].props, n)
      case Some(d) => Some(d)
      case None => FindInChain(frames[1..], n)
  }

  /** Property lookup as `o[n]` performs it. */
  function Lookup(o: Obj, n: string): (r: Option<Descriptor>)
    ensures Find(o.own, n).Some? ==> r == Find(o.own, n)
    ensures Find(o.own, n).None? ==> r == FindInChain(o.protos, n)
  {
    match Find(o.own, n)
    case Some(d) => Some(d)
    case None => FindInChain(o.protos, n)
  }

  /** What reading a property with descriptor `d` yields. */
  function Read(d: Descriptor): Value
  {
    match d
    case DataDesc(v, _, _, _) => v
    case AccessorDesc(g, y, _, _, _) => if g then y else Undefined
  }

  /** `o[n]`: undefined when no object of the chain has `n`. */
  function Get(o: Obj, n: string): Value
  {
    match Lookup(o, n)
    case Some(d) => Read(d)
    case None => Undefined
  }

  /** The kind the introspector assigns a property: `isGetter` first, then `isFunction(x[name])`. */
  function KindOf(d: Descriptor): Introspect.Kind
  {
    if d.AccessorDesc? && d.hasGetter then Introspect.Getter
    else if IsCallable(Read(d)) then Introspect.Method
    else Introspect.Data
  }

  function LevelOf(props: seq<Property>, isRoot: bool): Introspect.Level
  {
    Introspect.Level(seq(|props|, k requires 0 <= k < |props| => Introspect.Member(props[k].name, KindOf(props[k].desc))), isRoot)
  }

  /** The object seen as a prototype chain; the object itself is never `Object.prototype`. */
  function Shape(o: Obj): seq<Introspect.Level>
  {
    [LevelOf(o.own, false)] + seq(|o.protos|, i requires 0 <= i < |o.protos| => LevelOf(o.protos[i].props, o.protos[i].isRoot))
  }

  /** `getMethodNames(o)`. */
  function MethodNames(o: Obj): seq<string>
  {
    Introspect.GetMethodNames(Shape(o))
  }

  /** The assignment `o[n] = v` throws: the property it would hit is read-only or has no setter. */
  predicate Refuses(o: Obj, n: string)
  {
    match Lookup(o, n)
    case Some(AccessorDesc(_, _, s, _, _)) => !s
    case Some(DataDesc(_, w, _, _)) => !w
    case None => false
  }

  /** The assignment `o[n] = v` runs a setter and leaves the own properties as they are. */
  predicate Intercepted(o: Obj, n: string)
  {
    Lookup(o, n).Some? && Lookup(o, n).value.AccessorDesc? && Lookup(o, n).value.hasSetter
  }

  /** The own descriptor an assignment of `v` to `n` leaves behind: an own data property keeps its
      flags, otherwise a new property is writable, enumerable and configurable. */
  function Stored(o: Obj, n: string, v: Value): Descriptor
  {
    match Find(o.own, n)
    case Some(DataDesc(_, w, e, c)) => DataDesc(v, w, e, c)
    case _ => DataDesc(v, true, true, true)
  }

  /** The strict-mode assignment `o[n] = v`. */
  function Assign(o: Obj, n: string, v: Value): (r: Result<Obj>)
    ensures r.Failed? <==> Refuses(o, n)
    ensures r.Ok? ==> r.value.self == o.self && r.value.protos == o.protos
    ensures r.Ok? && !Intercepted(o, n) ==> Get(r.value, n) == v
    ensures r.Ok? ==> forall k :: k != n ==> Find(r.value.own, k) == Find(o.own, k)
  {
    match Lookup(o, n)
    case Some(AccessorDesc(_, _, hasSetter, _, _)) =>
      if hasSetter then Ok(o) else Failed(NoSetter(n))
    case Some(DataDesc(_, writable, _, _)) =>
      if writable then Ok(o.(own := Put(o.own, n, Stored(o, n, v)))) else Failed(ReadOnly(n))
    case None =>
      Ok(o.(own := Put(o.own, n, Stored(o, n, v))))
  }

  /** What an accepted assignment does to the own property `n`. */
  lemma AssignOwn(o: Obj, n: string, v: Value)
    requires Assign(o, n, v).Ok?
    ensures Find(Assign(o, n, v).value.own, n) == if Intercepted(o, n) then Find(o.own, n) else Some(Stored(o, n, v))
  {
  }

  /** The names a loop visits, in order. */
  function Names<T>(ws: seq<Entry<T>>): (r: seq<string>)
    ensures |r| == |ws| && forall i :: 0 <= i < |ws| ==> r[i] == ws[i].name
  {
    seq(|ws|, i requires 0 <= i < |ws| => ws[i].name)
  }

  /** A run of assignments `o[ws[0].name] = ws[0].item; ...`; the first one that throws ends it. */
  function AssignAll(o: Obj, ws: seq<Write>): Result<Obj>
    decreases |ws|
  {
    if |ws| == 0 then Ok(o)
    else match Assign(o, ws[0].name, ws[0].item)
      case Failed(e) => Failed(e)
      case Ok(o1) => AssignAll(o1, ws[1..])
  }

  /** Nothing an assignment to `n` does changes how another name `k` looks up. */
  lemma AssignKeepsOthers(o: Obj, n: string, v: Value, k: string, v': Value)
    requires Assign(o, n, v).Ok? && k != n
    ensures Lookup(Assign(o, n, v).value, k) == Lookup(o, k)
    ensures Refuses(Assign(o, n, v).value, k) == Refuses(o, k)
    ensures Intercepted(Assign(o, n, v).value, k) == Intercepted(o, k)
    ensures Stored(Assign(o, n, v).value, k, v') == Stored(o, k, v')
  {
  }

  /** Assignments to distinct names: the run throws exactly when one of them would throw on the
      original object; otherwise each written name holds its value (unless a setter took it),
      and every other own property is untouched. Positions of existing properties are kept. */
  lemma AssignAllSpec(o: Obj, ws: seq<Write>)
    requires NoDup(Names(ws))
    ensures AssignAll(o, ws).Failed? <==> exists i :: 0 <= i < |ws| && Refuses(o, ws[i].name)
    ensures AssignAll(o, ws).Ok? ==>
              var o' := AssignAll(o, ws).value;
              && o'.self == o.self && o'.protos == o.protos
              && (forall i :: 0 <= i < |ws| ==>
                    Find(o'.own, ws[i].name) == if Intercepted(o, ws[i].name) then Find(o.own, ws[i].name)
                                                else Some(Stored(o, ws[i].name, ws[i].item)))
              && (forall k :: k !in Names(ws) ==> Find(o'.own, k) == Find(o.own, k))
              && |o.own| <= |o'.own|
              && (forall i :: 0 <= i < |o.own| ==> o'.own[i].name == o.own[i].name)
  {
    AssignAllFails(o, ws);
    if AssignAll(o, ws).Ok? {
      AssignAllFrame(o, ws);
      AssignAllStores(o, ws);
    }
  }

  /** Splitting off the first assignment of a run. */
  lemma AssignAllStep(o: Obj, ws: seq<Write>)
    requires NoDup(Names(ws)) && |ws| > 0
    ensures NoDup(Names(ws[1..])) && ws[0].name !in Names(ws[1..])
    ensures Assign(o, ws[0].name, ws[0].item).Ok? ==>
              AssignAll(o, ws) == AssignAll(Assign(o, ws[0].name, ws[0].item).value, ws[1..])
  {
    assert Names(ws) == [ws[0].name] + Names(ws[1..]);
    NoDupTail(Names(ws));
  }

  lemma {:induction false} AssignAllFails(o: Obj, ws: seq<Write>)
    requires NoDup(Names(ws))
    ensures AssignAll(o, ws).Failed? <==> exists i :: 0 <= i < |ws| && Refuses(o, ws[i].name)
    decreases |ws|
  {
    if |ws| > 0 {
      var n, v, rest := ws[0].name, ws[0].item, ws[1..];
      AssignAllStep(o, ws);
      if Assign(o, n, v).Failed? {
        assert Refuses(o, ws[0].name);
      } else {
        AssignAllFails(Assign(o, n, v).value, rest);
        AssignAllFailsStep(o, ws);
      }
    }
  }

  /** After an accepted first assignment, the rest of the run meets a refusing name exactly when
      the whole run did on the original object. */
  lemma AssignAllFailsStep(o: Obj, ws: seq<Write>)
    requires NoDup(Names(ws)) && |ws| > 0 && Assign(o, ws[0].name, ws[0].item).Ok?
    ensures var o1, rest := Assign(o, ws[0].name, ws[0].item).value, ws[1..];
            (exists i :: 0 <= i < |ws| && Refuses(o, ws[i].name)) <==>
            (exists i :: 0 <= i < |rest| && Refuses(o1, rest[i].name))
  {
    var o1, rest := Assign(o, ws[0].name, ws[0].item).value, ws[1..];
    AssignAllStep(o, ws);
    if exists i :: 0 <= i < |ws| && Refuses(o, ws[i].name) {
      var i :| 0 <= i < |ws| && Refuses(o, ws[i].name);
      AssignAllFailsStepAt(o, ws, i);
      assert rest[i - 1] == ws[i];
    }
    if exists i :: 0 <= i < |rest| && Refuses(o1, rest[i].name) {
      var i :| 0 <= i < |rest| && Refuses(o1, rest[i].name);
      AssignAllFailsStepAt(o, ws, i + 1);
      assert rest[i] == ws[i + 1];
    }
  }

  lemma AssignAllFailsStepAt(o: Obj, ws: seq<Write>, i: nat)
    requires NoDup(Names(ws)) && i < |ws| && Assign(o, ws[0].name, ws[0].item).Ok?
    ensures i > 0 || !Refuses(o, ws[0].name)
    ensures i > 0 ==> Refuses(Assign(o, ws[0].name, ws[0].item).value, ws[i].name) == Refuses(o, ws[i].name)
  {
    if i > 0 {
      assert Names(ws)[0] != Names(ws)[i];
      AssignKeepsOthers(o, ws[0].name, ws[0].item, ws[i].name, ws[i].item);
    }
  }

  lemma {:induction false} AssignAllFrame(o: Obj, ws: seq<Write>)
    requires NoDup(Names(ws)) && AssignAll(o, ws).Ok?
    ensures var o' := AssignAll(o, ws).value;
            && o'.self == o.self && o'.protos == o.protos
            && (forall k :: k !in Names(ws) ==> Find(o'.own, k) == Find(o.own, k))
            && |o.own| <= |o'.own|
            && (forall i :: 0 <= i < |o.own| ==> o'.own[i].name == o.own[i].name)
    decreases |ws|
  {
    if |ws| > 0 {
      AssignAllStep(o, ws);
      var o1 := Assign(o, ws[0].name, ws[0].item).value;
      AssignAllFrame(o1, ws[1..]);
      assert |o.own| <= |o1.own| && forall i :: 0 <= i < |o.own| ==> o1.own[i].name == o.own[i].name;
    }
  }

  lemma {:induction false} AssignAllStores(o: Obj, ws: seq<Write>)
    requires NoDup(Names(ws)) && AssignAll(o, ws).Ok?
    ensures var o' := AssignAll(o, ws).value;
            forall i :: 0 <= i < |ws| ==>
              Find(o'.own, ws[i].name) == if Intercepted(o, ws[i].name) then Find(o.own, ws[i].name)
                                          else Some(Stored(o, ws[i].name, ws[i].item))
    decreases |ws|
  {
    if |ws| > 0 {
      var n, v, rest := ws[0].name, ws[0].item, ws[1..];
      AssignAllStep(o, ws);
      var o1 := Assign(o, n, v).value;
      AssignAllStores(o1, rest);
      AssignAllFrame(o1, rest);
      AssignOwn(o, n, v);
      var o' := AssignAll(o, ws).value;
      forall i | 0 <= i < |ws|
        ensures Find(o'.own, ws[i].name) == if Intercepted(o, ws[i].name) then Find(o.own, ws[i].name)
                                             else Some(Stored(o, ws[i].name, ws[i].item))
      {
        if i > 0 {
          assert rest[i - 1] == ws[i];
          assert ws[i].name in Names(rest);
          AssignKeepsOthers(o, n, v, ws[i].name, ws[i].item);
        }
      }
    }
  }

  /** Redefining `n` throws: `getMethodDescriptor`'s call `o.hasOwnProperty(n)` finds no function
      (the chain does not reach `Object.prototype`, or something shadows it with a non-function), or
      `Object.defineProperty` with the descriptor `classMethodDecorator` returns throws because the
      own property is an accessor (the descriptor would carry both `get`/`set` and `value`) or is
      non-configurable and non-writable. */
  predicate Undefinable(o: Obj, n: string)
  {
    if !IsCallable(Get(o, "hasOwnProperty")) then true
    else match Find(o.own, n)
    case Some(AccessorDesc(_, _, _, _, _)) => true
    case Some(DataDesc(_, w, _, c)) => !w && !c
    case None => false
  }

  /** `getMethodDescriptor` followed by `classMethodDecorator` and `Object.defineProperty`:
      the value of `n` becomes a wrapper around what `o[n]` was, under the config `cfg`. */
  function Define(o: Obj, n: string, cfg: Config): (r: Result<Obj>)
    ensures r.Failed? <==> Undefinable(o, n)
    ensures r.Ok? ==> r.value.self == o.self && r.value.protos == o.protos
    ensures r.Ok? ==> forall k :: k != n ==> Find(r.value.own, k) == Find(o.own, k)
    ensures r.Ok? ==> Get(r.value, n) == Wrapper(Get(o, n), Some(n), cfg)
    ensures r.Ok? ==> Find(r.value.own, n).Some? && Find(r.value.own, n).value.DataDesc?
    ensures r.Ok? && Find(o.own, n).Some? ==>
              var before, after := Find(o.own, n).value, Find(r.value.own, n).value;
              after.writable == before.writable && after.enumerable == before.enumerable && after.configurable == before.configurable
    ensures r.Ok? && Find(o.own, n).None? ==>
              var after := Find(r.value.own, n).value;
              after.writable && after.enumerable && after.configurable
  {
    if !IsCallable(Get(o, "hasOwnProperty")) then Failed(NoHasOwnProperty(n))
    else match Find(o.own, n)
    case Some(AccessorDesc(_, _, _, _, _)) => Failed(AccessorWithValue(n))
    case Some(DataDesc(v, w, e, c)) =>
      if !w && !c then Failed(Frozen(n))
      else Ok(o.(own := Put(o.own, n, DataDesc(Wrapper(v, Some(n), cfg), w, e, c))))
    case None =>
      Ok(o.(own := Put(o.own, n, DataDesc(Wrapper(Get(o, n), Some(n), cfg), true, true, true))))
  }

  /** The descriptor `Define` installs for `n`, stated without running it. */
  function Rewrapped(o: Obj, n: string, cfg: Config): Descriptor
  {
    match Find(o.own, n)
    case Some(DataDesc(_, w, e, c)) => DataDesc(Wrapper(Get(o, n), Some(n), cfg), w, e, c)
    case _ => DataDesc(Wrapper(Get(o, n), Some(n), cfg), true, true, true)
  }

  /** The loop over the members to wrap on an object target. */
  function DefineAll(o: Obj, ws: seq<Wrap>): Result<Obj>
    decreases |ws|
  {
    if |ws| == 0 then Ok(o)
    else match Define(o, ws[0].name, ws[0].item)
      case Failed(e) => Failed(e)
      case Ok(o1) => DefineAll(o1, ws[1..])
  }

  /** Redefining distinct names: the run throws exactly when one of the names is undefinable on the
      original object; otherwise each named property is rewrapped from its original value and flags,
      and every other own property is untouched. */
  lemma DefineAllSpec(o: Obj, ws: seq<Wrap>)
    requires NoDup(Names(ws))
    ensures DefineAll(o, ws).Failed? <==> exists i :: 0 <= i < |ws| && Undefinable(o, ws[i].name)
    ensures DefineAll(o, ws).Ok? ==>
              var o' := DefineAll(o, ws).value;
              && o'.self == o.self && o'.protos == o.protos
              && (forall i :: 0 <= i < |ws| ==> Find(o'.own, ws[i].name) == Some(Rewrapped(o, ws[i].name, ws[i].item)))
              && (forall k :: k !in Names(ws) ==> Find(o'.own, k) == Find(o.own, k))
  {
    DefineAllFails(o, ws);
    if DefineAll(o, ws).Ok? {
      DefineAllFrame(o, ws);
      DefineAllRewraps(o, ws);
    }
  }

  /** Splitting off the first redefinition of a run. */
  lemma DefineAllStep(o: Obj, ws: seq<Wrap>)
    requires NoDup(Names(ws)) && |ws| > 0
    ensures NoDup(Names(ws[1..])) && ws[0].name !in Names(ws[1..])
    ensures Define(o, ws[0].name, ws[0].item).Ok? ==>
              DefineAll(o, ws) == DefineAll(Define(o, ws[0].name, ws[0].item).value, ws[1..])
  {
    assert Names(ws) == [ws[0].name] + Names(ws[1..]);
    NoDupTail(Names(ws));
  }

  lemma {:induction false} DefineAllFails(o: Obj, ws: seq<Wrap>)
    requires NoDup(Names(ws))
    ensures DefineAll(o, ws).Failed? <==> exists i :: 0 <= i < |ws| && Undefinable(o, ws[i].name)
    decreases |ws|
  {
    if |ws| > 0 {
      var n, cfg, rest := ws[0].name, ws[0].item, ws[1..];
      DefineAllStep(o, ws);
      if Define(o, n, cfg).Failed? {
        assert Undefinable(o, ws[0].name);
      } else {
        DefineAllFails(Define(o, n, cfg).value, rest);
        DefineAllFailsStep(o, ws);
      }
    }
  }

  /** After an accepted first redefinition, the rest of the run meets an undefinable name exactly
      when the whole run did on the original object. */
  lemma DefineAllFailsStep(o: Obj, ws: seq<Wrap>)
    requires NoDup(Names(ws)) && |ws| > 0 && Define(o, ws[0].name, ws[0].item).Ok?
    ensures var o1, rest := Define(o, ws[0].name, ws[0].item).value, ws[1..];
            (exists i :: 0 <= i < |ws| && Undefinable(o, ws[i].name)) <==>
            (exists i :: 0 <= i < |rest| && Undefinable(o1, rest[i].name))
  {
    var o1, rest := Define(o, ws[0].name, ws[0].item).value, ws[1..];
    DefineAllStep(o, ws);
    if exists i :: 0 <= i < |ws| && Undefinable(o, ws[i].name) {
      var i :| 0 <= i < |ws| && Undefinable(o, ws[i].name);
      DefineAllFailsStepAt(o, ws, i);
      assert rest[i - 1] == ws[i];
    }
    if exists i :: 0 <= i < |rest| && Undefinable(o1, rest[i].name) {
      var i :| 0 <= i < |rest| && Undefinable(o1, rest[i].name);
      DefineAllFailsStepAt(o, ws, i + 1);
      assert rest[i] == ws[i + 1];
    }
  }

  lemma DefineAllFailsStepAt(o: Obj, ws: seq<Wrap>, i: nat)
    requires NoDup(Names(ws)) && i < |ws| && Define(o, ws[0].name, ws[0].item).Ok?
    ensures i > 0 || !Undefinable(o, ws[0].name)
    ensures i > 0 ==> Undefinable(Define(o, ws[0].name, ws[0].item).value, ws[i].name) == Undefinable(o, ws[i].name)
  {
    if i > 0 {
      assert Names(ws)[0] != Names(ws)[i];
      DefineKeepsOthers(o, ws[0].name, ws[0].item, ws[i].name, ws[i].item);
    }
  }

  lemma {:induction false} DefineAllFrame(o: Obj, ws: seq<Wrap>)
    requires NoDup(Names(ws)) && DefineAll(o, ws).Ok?
    ensures var o' := DefineAll(o, ws).value;
            && o'.self == o.self && o'.protos == o.protos
            && (forall k :: k !in Names(ws) ==> Find(o'.own, k) == Find(o.own, k))
    decreases |ws|
  {
    if |ws| > 0 {
      DefineAllStep(o, ws);
      DefineAllFrame(Define(o, ws[0].name, ws[0].item).value, ws[1..]);
    }
  }

  lemma {:induction false} DefineAllRewraps(o: Obj, ws: seq<Wrap>)
    requires NoDup(Names(ws)) && DefineAll(o, ws).Ok?
    ensures var o' := DefineAll(o, ws).value;
            forall i :: 0 <= i < |ws| ==> Find(o'.own, ws[i].name) == Some(Rewrapped(o, ws[i].name, ws[i].item))
    decreases |ws|
  {
    if |ws| > 0 {
      var n, cfg, rest := ws[0].name, ws[0].item, ws[1..];
      DefineAllStep(o, ws);
      var o1 := Define(o, n, cfg).value;
      DefineAllRewraps(o1, rest);
      DefineAllFrame(o1, rest);
      DefineOwn(o, n, cfg);
      var o' := DefineAll(o, ws).value;
      forall i | 0 <= i < |ws| ensures Find(o'.own, ws[i].name) == Some(Rewrapped(o, ws[i].name, ws[i].item)) {
        if i > 0 {
          assert rest[i - 1] == ws[i];
          assert ws[i].name in Names(rest);
          DefineKeepsOthers(o, n, cfg, ws[i].name, ws[i].item);
        }
      }
    }
  }

  /** An object created with a null prototype (`Object.create(null)`) that does not declare
      `hasOwnProperty` itself cannot have any member redefined: `getMethodDescriptor` throws. */
  lemma NullPrototypeUndefinable(o: Obj, n: string, cfg: Config)
    requires o.protos == [] && Find(o.own, "hasOwnProperty").None?
    ensures Undefinable(o, n)
    ensures Define(o, n, cfg) == Failed(NoHasOwnProperty(n))
  {
    assert Get(o, "hasOwnProperty") == Undefined;
  }

  /** What an accepted redefinition does to the own property `n`. */
  lemma DefineOwn(o: Obj, n: string, cfg: Config)
    requires Define(o, n, cfg).Ok?
    ensures Find(Define(o, n, cfg).value.own, n) == Some(Rewrapped(o, n, cfg))
  {
  }

  /** Redefining `n` changes neither whether another name `k` can be redefined nor what that would install. */
  lemma DefineKeepsOthers(o: Obj, n: string, cfg: Config, k: string, cfg': Config)
    requires Define(o, n, cfg).Ok? && k != n
    ensures Undefinable(Define(o, n, cfg).value, k) == Undefinable(o, k)
    ensures Rewrapped(Define(o, n, cfg).value, k, cfg') == Rewrapped(o, k, cfg')
  {
    var o1 := Define(o, n, cfg).value;
    assert Lookup(o1, k) == Lookup(o, k);
    if n != "hasOwnProperty" {
      assert Lookup(o1, "hasOwnProperty") == Lookup(o, "hasOwnProperty");
    }
  }

  /** `DefineAllSpec`'s failure condition, stated over the names. */
  lemma DefineAllFailsByName(o: Obj, ws: seq<Wrap>)
    requires NoDup(Names(ws))
    ensures DefineAll(o, ws).Failed? <==> exists n :: n in Names(ws) && Undefinable(o, n)
  {
    DefineAllSpec(o, ws);
    if DefineAll(o, ws).Failed? {
      var i :| 0 <= i < |ws| && Undefinable(o, ws[i].name);
      assert Names(ws)[i] == ws[i].name;
    }
  }

  /** `AssignAllSpec`'s failure condition, stated over the names. */
  lemma AssignAllFailsByName(o: Obj, ws: seq<Write>)
    requires NoDup(Names(ws))
    ensures AssignAll(o, ws).Failed? <==> exists n :: n in Names(ws) && Refuses(o, n)
  {
    AssignAllSpec(o, ws);
    if AssignAll(o, ws).Failed? {
      var i :| 0 <= i < |ws| && Refuses(o, ws[i].name);
      assert Names(ws)[i] == ws[i].name;
    }
  }

  /** After a run of assignments, reading a written name that no setter took yields the value written. */
  lemma AssignAllReads(o: Obj, ws: seq<Write>, i: nat)
    requires NoDup(Names(ws)) && AssignAll(o, ws).Ok?
    requires i < |ws| && !Intercepted(o, ws[i].name)
    ensures Get(AssignAll(o, ws).value, ws[i].name) == ws[i].item
  {
    AssignAllSpec(o, ws);
    var o' := AssignAll(o, ws).value;
    assert Find(o'.own, ws[i].name) == Some(Stored(o, ws[i].name, ws[i].item));
  }
}
