/**
 Sequence helpers shared by the introspector and the decoration engine:
 order-preserving filtering, first-occurrence deduplication (what
 `[ ...new Set(xs) ]` computes) and substring search (`String.includes`).
 */
module Seqs {

  predicate NoDup<T(==,!new)>(s: seq<T>)
  {
    forall i, j :: 0 <= i < j < |s| ==> s[i] != s[j]
  }

  /** Position of the first occurrence of `x` in `s`. */
  function IndexOf<T(==,!new)>(s: seq<T>, x: T): (k: nat)
    requires x in s
    ensures k < |s| && s[k] == x
    ensures forall j :: 0 <= j < k ==> s[j] != x
  {
    if s[0] == x then 0 else 1 + IndexOf(s[1..], x)
  }

  /** Every element of `r` occurs in `s`, and `r` lists them in the order of their first occurrence in `s`. */
  predicate FollowsOrder<T(==,!new)>(r: seq<T>, s: seq<T>)
  {
    && (forall x :: x in r ==> x in s)
    && (forall i, j :: 0 <= i < j < |r| ==> r[i] in s && r[j] in s && IndexOf(s, r[i]) < IndexOf(s, r[j]))
  }

  lemma {:induction false} IndexOfAppend<T(!new)>(a: seq<T>, b: seq<T>, x: T)
    requires x in a + b
    ensures x in a ==> IndexOf(a + b, x) == IndexOf(a, x)
    ensures x !in a ==> x in b && IndexOf(a + b, x) == |a| + IndexOf(b, x)
  {
    if |a| > 0 {
      assert (a + b)[1..] == a[1..] + b;
      if a[0] != x {
        IndexOfAppend(a[1..], b, x);
      }
    } else {
      assert a + b == b;
    }
  }

  /** The elements of `s` for which `p` holds, in their original order. */
  function Filter<T(==,!new)>(p: T -> bool, s: seq<T>): (r: seq<T>)
    ensures forall x :: x in r <==> x in s && p(x)
    ensures |r| <= |s|
    ensures NoDup(s) ==> NoDup(r) && FollowsOrder(r, s)
  {
    if |s| == 0 then []
    else
      var rest := Filter(p, s[1..]);
      FilterStep(p, s, rest);
      if p(s[0]) then [s[0]] + rest else rest
  }

  lemma FilterStep<T(!new)>(p: T -> bool, s: seq<T>, rest: seq<T>)
    requires |s| > 0
    requires forall x :: x in rest ==> x in s[1..]
    requires NoDup(s[1..]) ==> NoDup(rest) && FollowsOrder(rest, s[1..])
    ensures NoDup(s) ==> NoDup(if p(s[0]) then [s[0]] + rest else rest)
    ensures NoDup(s) ==> FollowsOrder(if p(s[0]) then [s[0]] + rest else rest, s)
  {
    if NoDup(s) {
      NoDupTail(s);
      IndexOfTail(s);
      if p(s[0]) {
        FilterKeep(s, rest);
      } else {
        FilterSkip(s, rest);
      }
    }
  }

  lemma FilterKeep<T(!new)>(s: seq<T>, rest: seq<T>)
    requires |s| > 0 && NoDup(s)
    requires forall x :: x in rest ==> x in s[1..]
    requires NoDup(rest) && FollowsOrder(rest, s[1..])
    requires forall x :: x in s[1..] ==> x in s && IndexOf(s, x) == 1 + IndexOf(s[1..], x)
    ensures NoDup([s[0]] + rest) && FollowsOrder([s[0]] + rest, s)
  {
    var r := [s[0]] + rest;
    NoDupTail(s);
    assert s[0] !in rest;
    forall i, j | 0 <= i < j < |r| ensures r[i] in s && r[j] in s && IndexOf(s, r[i]) < IndexOf(s, r[j]) {
      KeepPair(s, rest, i, j);
    }
  }

  lemma KeepPair<T(!new)>(s: seq<T>, rest: seq<T>, i: nat, j: nat)
    requires |s| > 0
    requires forall x :: x in rest ==> x in s[1..]
    requires FollowsOrder(rest, s[1..])
    requires forall x :: x in s[1..] ==> x in s && IndexOf(s, x) == 1 + IndexOf(s[1..], x)
    requires i < j < 1 + |rest|
    ensures ([s[0]] + rest)[i] in s && ([s[0]] + rest)[j] in s
    ensures IndexOf(s, ([s[0]] + rest)[i]) < IndexOf(s, ([s[0]] + rest)[j])
  {
    var r := [s[0]] + rest;
    var y := rest[j - 1];
    assert r[j] == y && y in s[1..];
    if i == 0 {
      assert r[0] == s[0];
    } else {
      var x := rest[i - 1];
      assert r[i] == x && x in s[1..];
      assert IndexOf(s[1..], x) < IndexOf(s[1..], y);
    }
  }

  lemma FilterSkip<T(!new)>(s: seq<T>, rest: seq<T>)
    requires |s| > 0
    requires forall x :: x in rest ==> x in s[1..]
    requires FollowsOrder(rest, s[1..])
    requires forall x :: x in s[1..] ==> x in s && IndexOf(s, x) == 1 + IndexOf(s[1..], x)
    ensures FollowsOrder(rest, s)
  {
    forall i, j | 0 <= i < j < |rest| ensures rest[i] in s && rest[j] in s && IndexOf(s, rest[i]) < IndexOf(s, rest[j]) {
      assert rest[i] in s[1..] && rest[j] in s[1..];
    }
  }

  lemma NoDupTail<T(!new)>(s: seq<T>)
    requires |s| > 0 && NoDup(s)
    ensures NoDup(s[1..]) && s[0] !in s[1..]
  {
    forall i, j | 0 <= i < j < |s[1..]| ensures s[1..][i] != s[1..][j] {
      assert s[1..][i] == s[i + 1] && s[1..][j] == s[j + 1];
    }
  }

  lemma IndexOfTail<T(!new)>(s: seq<T>)
    requires |s| > 0 && NoDup(s)
    ensures forall x :: x in s[1..] ==> x in s && IndexOf(s, x) == 1 + IndexOf(s[1..], x)
  {
    NoDupTail(s);
    assert s == [s[0]] + s[1..];
    forall x | x in s[1..] ensures x in s && IndexOf(s, x) == 1 + IndexOf(s[1..], x) {
      IndexOfAppend([s[0]], s[1..], x);
    }
  }

  /** First-occurrence deduplication: the value of `[ ...new Set(s) ]`. */
  function Distinct<T(==,!new)>(s: seq<T>): (r: seq<T>)
    ensures NoDup(r)
    ensures forall x :: x in r <==> x in s
    ensures FollowsOrder(r, s)
    decreases |s|
  {
    if |s| == 0 then []
    else
      var init := s[..|s| - 1];
      var last := s[|s| - 1];
      var d := Distinct(init);
      assert s == init + [last];
      DistinctStep(init, last, d);
      if last in d then d else d + [last]
  }

  lemma DistinctStep<T(!new)>(init: seq<T>, last: T, d: seq<T>)
    requires NoDup(d)
    requires forall x :: x in d <==> x in init
    requires FollowsOrder(d, init)
    ensures last in d ==> FollowsOrder(d, init + [last])
    ensures last !in d ==> NoDup(d + [last]) && FollowsOrder(d + [last], init + [last])
  {
    var s := init + [last];
    forall x | x in init ensures x in s && IndexOf(s, x) == IndexOf(init, x) {
      IndexOfAppend(init, [last], x);
    }
    if last !in d {
      var r := d + [last];
      IndexOfAppend(init, [last], last);
      assert IndexOf(s, last) == |init|;
      forall i, j | 0 <= i < j < |r| ensures r[i] in s && r[j] in s && IndexOf(s, r[i]) < IndexOf(s, r[j]) {
        assert r[i] == d[i];
        if j < |d| {
          assert r[j] == d[j];
        }
      }
    }
  }

  /** `s.includes(sub)`: `sub` occurs in `s` at some position. */
  predicate Contains<T(==,!new)>(s: seq<T>, sub: seq<T>)
  {
    sub <= s || (|s| > 0 && Contains(s[1..], sub))
  }

  /** `sub` occurs in `s` starting at position `i`. */
  predicate OccursAt<T(==,!new)>(s: seq<T>, sub: seq<T>, i: nat)
  {
    i + |sub| <= |s| && s[i..i + |sub|] == sub
  }

  /** `Contains` finds nothing that does not occur: a match has an explicit position. */
  lemma {:induction false} ContainsWitness<T(!new)>(s: seq<T>, sub: seq<T>)
    requires Contains(s, sub)
    ensures exists i: nat :: OccursAt(s, sub, i)
    decreases |s|
  {
    if sub <= s {
      assert OccursAt(s, sub, 0);
    } else {
      ContainsWitness(s[1..], sub);
      var k: nat :| OccursAt(s[1..], sub, k);
      assert s[k + 1..k + 1 + |sub|] == s[1..][k..k + |sub|];
      assert OccursAt(s, sub, k + 1);
    }
  }

  /** Characterises `Contains` by an explicit position. */
  lemma {:induction false} ContainsAt<T(!new)>(s: seq<T>, sub: seq<T>, i: nat)
    requires OccursAt(s, sub, i)
    ensures Contains(s, sub)
  {
    if i > 0 {
      assert s[1..][i - 1..i - 1 + |sub|] == s[i..i + |sub|];
      ContainsAt(s[1..], sub, i - 1);
    } else {
      assert sub <= s;
    }
  }
}
