/** Sequence operations that the other modules share. */
module Sequences {

  function Map<S, T>(f: S -> T, s: seq<S>): (r: seq<T>)
    ensures |r| == |s|
    ensures forall i :: 0 <= i < |s| ==> r[i] == f(s[i])
  {
    seq(|s|, i requires 0 <= i < |s| => f(s[i]))
  }

  function Flatten<T>(ss: seq<seq<T>>): seq<T> {
    if ss == [] then [] else Flatten(ss[..|ss| - 1]) + ss[|ss| - 1]
  }

  function Copies<T>(x: T, n: nat): seq<T> {
    seq(n, _ => x)
  }

  // ----- sums

  function SumOver<T>(f: T -> nat, s: seq<T>): nat {
    if s == [] then 0 else SumOver(f, s[..|s| - 1]) + f(s[|s| - 1])
  }

  function Indicator<T>(p: T -> bool): T -> nat {
    (x: T) => if p(x) then 1 else 0
  }

  /** How many elements have the property. */
  function CountIf<T>(p: T -> bool, s: seq<T>): nat {
    SumOver(Indicator(p), s)
  }

  function RealSum<T>(f: T -> real, s: seq<T>): real {
    if s == [] then 0.0 else RealSum(f, s[..|s| - 1]) + f(s[|s| - 1])
  }

  lemma {:induction false} SumPointwise<T>(f: T -> nat, g: T -> nat, s: seq<T>)
    requires forall x :: x in s ==> f(x) == g(x)
    ensures SumOver(f, s) == SumOver(g, s)
  {
    if s != [] {
      SumPointwise(f, g, s[..|s| - 1]);
    }
  }

  lemma {:induction false} SumAppend<T>(f: T -> nat, a: seq<T>, b: seq<T>)
    ensures SumOver(f, a + b) == SumOver(f, a) + SumOver(f, b)
  {
    if b == [] {
      assert a + b == a;
    } else {
      var init := b[..|b| - 1];
      assert (a + b)[..|a + b| - 1] == a + init;
      SumAppend(f, a, init);
    }
  }

  lemma {:induction false} RealSumAppend<T>(f: T -> real, a: seq<T>, b: seq<T>)
    ensures RealSum(f, a + b) == RealSum(f, a) + RealSum(f, b)
  {
    if b == [] {
      assert a + b == a;
    } else {
      var init := b[..|b| - 1];
      assert (a + b)[..|a + b| - 1] == a + init;
      RealSumAppend(f, a, init);
    }
  }

  lemma DropCommon<T>(init: seq<T>, e: T, a: seq<T>, b: seq<T>)
    requires multiset(init + [e]) == multiset(a + [e] + b)
    ensures multiset(init) == multiset(a + b)
  {
    assert multiset(init + [e]) == multiset(init) + multiset{e};
    assert multiset(a + [e] + b) == multiset(a + b) + multiset{e};
    assert multiset(init) == multiset(init + [e]) - multiset{e};
    assert multiset(a + b) == multiset(a + [e] + b) - multiset{e};
  }

  lemma FindsLast<T>(init: seq<T>, e: T, t: seq<T>) returns (a: seq<T>, b: seq<T>)
    requires multiset(init + [e]) == multiset(t)
    ensures t == a + [e] + b && multiset(init) == multiset(a + b)
  {
    assert e in multiset(init + [e]);
    var i :| 0 <= i < |t| && t[i] == e;
    a, b := t[..i], t[i + 1..];
    assert t == a + [e] + b;
    DropCommon(init, e, a, b);
  }

  /** Taking out an element takes off its weight, wherever it stands. */
  ghost predicate Additive<T(!new)>(g: seq<T> -> real, weight: T -> real) {
    forall a, x, b :: g(a + [x] + b) == g(a + b) + weight(x)
  }

  lemma {:induction false} AdditivePermutation<T(!new)>(g: seq<T> -> real, weight: T -> real, s: seq<T>, t: seq<T>)
    requires Additive(g, weight) && multiset(s) == multiset(t)
    ensures g(s) == g(t)
    decreases |s|
  {
    if s == [] {
      assert |t| == |multiset(t)|;
    } else {
      var e, init := s[|s| - 1], s[..|s| - 1];
      assert s == init + [e];
      var a, b := FindsLast(init, e, t);
      AdditivePermutation(g, weight, init, a + b);
      assert init + [e] + [] == s && init + [] == init;
      assert g(init + [e] + []) == g(init + []) + weight(e);
    }
  }

  lemma SumPermutation<T(!new)>(f: T -> nat, s: seq<T>, t: seq<T>)
    requires multiset(s) == multiset(t)
    ensures SumOver(f, s) == SumOver(f, t)
  {
    var g, weight := (u: seq<T>) => SumOver(f, u) as real, (x: T) => f(x) as real;
    forall a, x, b
      ensures g(a + [x] + b) == g(a + b) + weight(x)
    {
      SumAppend(f, a, b);
      SumAppend(f, a + [x], b);
      assert (a + [x])[..|a|] == a;
    }
    AdditivePermutation(g, weight, s, t);
  }

  lemma RealSumPermutation<T(!new)>(f: T -> real, s: seq<T>, t: seq<T>)
    requires multiset(s) == multiset(t)
    ensures RealSum(f, s) == RealSum(f, t)
  {
    var g := (u: seq<T>) => RealSum(f, u);
    forall a, x, b
      ensures g(a + [x] + b) == g(a + b) + f(x)
    {
      RealSumAppend(f, a, b);
      RealSumAppend(f, a + [x], b);
      assert (a + [x])[..|a|] == a;
    }
    AdditivePermutation(g, f, s, t);
  }
}
