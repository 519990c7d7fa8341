/**
 Member introspection: `deepFunctions`, `distinctDeepFunctions` and
 `getMethodNames` of src/decorators.js.

 An object is seen through its prototype chain: element 0 is the object's own
 level, element i + 1 the prototype of element i, and the sequence ends where
 `Object.getPrototypeOf` yields null. Each level lists its own property names
 in `Object.getOwnPropertyNames` order with the kind the type checks assign
 them. The walk stops at null (the end of the sequence) or at the level that
 is `Object.prototype` (`isRoot`).
 */
module Introspect {
  import opened Seqs

  /** `Getter`: `isGetter(x, name)` holds; `Method`: otherwise `isFunction(x[name])` holds; `Data`: neither. */
  datatype Kind = Method | Getter | Data

  datatype Member = Member(name: string, kind: Kind)

  datatype Level = Level(members: seq<Member>, isRoot: bool)

  /** Does `level` itself declare `n` as a function or a getter? */
  predicate Declares(level: Level, n: string)
  {
    exists k :: 0 <= k < |level.members| && level.members[k].name == n && level.members[k].kind != Data
  }

  /** The own names of one level that pass the `isGetter || isFunction` test, in declaration order. */
  function InvocableNames(ms: seq<Member>): (r: seq<string>)
    ensures forall n :: n in r <==> Declares(Level(ms, false), n)
  {
    if |ms| == 0 then []
    else
      var rest := InvocableNames(ms[1..]);
      assert forall n :: Declares(Level(ms[1..], false), n) ==> Declares(Level(ms, false), n) by {
        forall n | Declares(Level(ms[1..], false), n) ensures Declares(Level(ms, false), n) {
          var k :| 0 <= k < |ms[1..]| && ms[1..][k].name == n && ms[1..][k].kind != Data;
          assert ms[k + 1] == ms[1..][k];
        }
      }
      assert forall n :: Declares(Level(ms, false), n) && n != ms[0].name ==> Declares(Level(ms[1..], false), n) by {
        forall n | Declares(Level(ms, false), n) && n != ms[0].name ensures Declares(Level(ms[1..], false), n) {
          var k :| 0 <= k < |ms| && ms[k].name == n && ms[k].kind != Data;
          assert k > 0 && ms[1..][k - 1] == ms[k];
        }
      }
      if ms[0].kind != Data then [ms[0].name] + rest else rest
  }

  /** Within one level, `.filter` keeps `getOwnPropertyNames` order: the kept names of a
      split level are those of its first part followed by those of its second, and a single
      member contributes its name exactly when it is a function or a getter. */
  lemma {:induction false} InvocableNamesOrder(a: seq<Member>, b: seq<Member>)
    ensures InvocableNames(a + b) == InvocableNames(a) + InvocableNames(b)
    ensures |a| == 1 ==> InvocableNames(a) == if a[0].kind != Data then [a[0].name] else []
  {
    if |a| == 0 {
      assert a + b == b;
    } else {
      assert (a + b)[0] == a[0] && (a + b)[1..] == a[1..] + b;
      InvocableNamesOrder(a[1..], b);
      if |a| == 1 {
        assert a[1..] == [];
      }
    }
  }

  /** Number of levels the walk visits: it stops at the end of the chain or at the first root level. */
  function Reach(chain: seq<Level>): (k: nat)
    ensures k <= |chain|
    ensures forall i :: 0 <= i < k ==> !chain[i].isRoot
    ensures k < |chain| ==> chain[k].isRoot
  {
    if |chain| == 0 || chain[0].isRoot then 0 else 1 + Reach(chain[1..])
  }

  /** `n` is declared as a function or getter on a level the walk visits. */
  predicate Reachable(chain: seq<Level>, n: string)
  {
    exists i :: 0 <= i < Reach(chain) && Declares(chain[i], n)
  }

  /** `deepFunctions`: own level first, then the ancestors, duplicates kept. */
  function DeepFunctions(chain: seq<Level>): seq<string>
  {
    if |chain| == 0 || chain[0].isRoot then []
    else InvocableNames(chain[0].members) + DeepFunctions(chain[1..])
  }

  /** The name filter of `getMethodNames`: not `constructor`, and `name.indexOf('_') !== 0`. */
  predicate Visible(n: string)
  {
    n != "constructor" && !(|n| > 0 && n[0] == '_')
  }

  /** `getMethodNames`: the distinct visible names of the walk, in first-occurrence order. */
  function GetMethodNames(chain: seq<Level>): seq<string>
  {
    Filter(Visible, Distinct(DeepFunctions(chain)))
  }

  /** Levels are declared with `Declares`, whose own-level test ignores `isRoot`. */
  lemma DeclaresIgnoresRoot(level: Level, n: string)
    ensures Declares(level, n) == Declares(Level(level.members, false), n)
  {
  }

  /** The walk collects exactly the names declared as functions or getters on the visited levels. */
  lemma {:induction false} DeepFunctionsMembers(chain: seq<Level>)
    ensures forall n :: n in DeepFunctions(chain) <==> Reachable(chain, n)
  {
    if |chain| == 0 || chain[0].isRoot {
      assert Reach(chain) == 0;
    } else {
      var tail := chain[1..];
      DeepFunctionsMembers(tail);
      assert Reach(chain) == 1 + Reach(tail);
      forall n ensures n in DeepFunctions(chain) <==> Reachable(chain, n) {
        DeclaresIgnoresRoot(chain[0], n);
        if Reachable(tail, n) {
          var i :| 0 <= i < Reach(tail) && Declares(tail[i], n);
          assert chain[i + 1] == tail[i];
        }
        if Reachable(chain, n) && !Declares(chain[0], n) {
          var i :| 0 <= i < Reach(chain) && Declares(chain[i], n);
          assert i > 0 && tail[i - 1] == chain[i];
        }
      }
    }
  }

  /** The result of `getMethodNames` has no duplicates, hides `constructor` and
      underscore names, and lists exactly the visible names declared as
      functions or getters below `Object.prototype`, in the order the walk first meets them. */
  lemma MethodNamesSpec(chain: seq<Level>)
    ensures NoDup(GetMethodNames(chain))
    ensures "constructor" !in GetMethodNames(chain)
    ensures forall n :: n in GetMethodNames(chain) ==> |n| == 0 || n[0] != '_'
    ensures forall n :: n in GetMethodNames(chain) <==> Visible(n) && Reachable(chain, n)
    ensures FollowsOrder(GetMethodNames(chain), DeepFunctions(chain))
  {
    var deep := DeepFunctions(chain);
    var d := Distinct(deep);
    var r := GetMethodNames(chain);
    DeepFunctionsMembers(chain);
    forall i, j | 0 <= i < j < |r| ensures r[i] in deep && r[j] in deep && IndexOf(deep, r[i]) < IndexOf(deep, r[j]) {
      assert r[i] in d && r[j] in d;
      var a, b := IndexOf(d, r[i]), IndexOf(d, r[j]);
      assert IndexOf(d, r[i]) < IndexOf(d, r[j]);
      assert d[a] == r[i] && d[b] == r[j];
    }
  }

  /** The first visited level that declares `n`. */
  function FirstLevel(chain: seq<Level>, n: string): (i: nat)
    requires Reachable(chain, n)
    ensures i < Reach(chain) && Declares(chain[i], n)
    ensures forall j :: 0 <= j < i ==> !Declares(chain[j], n)
  {
    if Declares(chain[0], n) then 0
    else
      assert Reachable(chain[1..], n) by {
        var i :| 0 <= i < Reach(chain) && Declares(chain[i], n);
        assert i > 0 && chain[1..][i - 1] == chain[i];
      }
      var k := FirstLevel(chain[1..], n);
      assert chain[k + 1] == chain[1..][k];
      1 + k
  }

  /** In the raw walk, names first declared on a nearer level come before names first declared further up. */
  lemma {:induction false} DeepFunctionsLevelOrder(chain: seq<Level>, a: string, b: string)
    requires Reachable(chain, a) && Reachable(chain, b)
    requires FirstLevel(chain, a) < FirstLevel(chain, b)
    ensures a in DeepFunctions(chain) && b in DeepFunctions(chain)
    ensures IndexOf(DeepFunctions(chain), a) < IndexOf(DeepFunctions(chain), b)
  {
    DeepFunctionsMembers(chain);
    var own := InvocableNames(chain[0].members);
    var tail := chain[1..];
    assert DeepFunctions(chain) == own + DeepFunctions(tail);
    DeclaresIgnoresRoot(chain[0], a);
    DeclaresIgnoresRoot(chain[0], b);
    assert b !in own;
    IndexOfAppend(own, DeepFunctions(tail), b);
    if FirstLevel(chain, a) == 0 {
      IndexOfAppend(own, DeepFunctions(tail), a);
    } else {
      assert a !in own;
      IndexOfAppend(own, DeepFunctions(tail), a);
      assert Reachable(tail, a) && FirstLevel(tail, a) == FirstLevel(chain, a) - 1 by {
        var i := FirstLevel(chain, a);
        assert tail[i - 1] == chain[i];
        FirstLevelShift(chain, a);
      }
      assert Reachable(tail, b) && FirstLevel(tail, b) == FirstLevel(chain, b) - 1 by {
        var i := FirstLevel(chain, b);
        assert tail[i - 1] == chain[i];
        FirstLevelShift(chain, b);
      }
      DeepFunctionsLevelOrder(tail, a, b);
    }
  }

  lemma FirstLevelShift(chain: seq<Level>, n: string)
    requires Reachable(chain, n) && FirstLevel(chain, n) > 0
    ensures Reachable(chain[1..], n) && FirstLevel(chain[1..], n) == FirstLevel(chain, n) - 1
  {
  }

  /** `getMethodNames` lists the own level's names before those it only inherits,
      and nearer ancestors' names before farther ones. */
  lemma MethodNamesLevelOrder(chain: seq<Level>, a: string, b: string)
    requires a in GetMethodNames(chain) && b in GetMethodNames(chain)
    ensures Reachable(chain, a) && Reachable(chain, b)
    ensures FirstLevel(chain, a) < FirstLevel(chain, b) ==>
              IndexOf(GetMethodNames(chain), a) < IndexOf(GetMethodNames(chain), b)
  {
    MethodNamesSpec(chain);
    var r := GetMethodNames(chain);
    var deep := DeepFunctions(chain);
    if FirstLevel(chain, a) < FirstLevel(chain, b) {
      DeepFunctionsLevelOrder(chain, a, b);
      var i, j := IndexOf(r, a), IndexOf(r, b);
      assert i != j;
    }
  }
}
