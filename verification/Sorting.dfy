/**
 The stable sort that ECMA-262 (section 23.1.3.30) requires of `Array.prototype.sort`,
 and what determines its result.
 */
module Sorting {
  import opened Sequences

  ghost predicate TotalPreorder<T(!new)>(le: (T, T) -> bool) {
    && (forall a, b :: le(a, b) || le(b, a))
    && (forall a, b, c :: le(a, b) && le(b, c) ==> le(a, c))
  }

  /** A comparator that returns 0 only for equal arguments. */
  ghost predicate TotalOrder<T(!new)>(le: (T, T) -> bool) {
    && TotalPreorder(le)
    && (forall a, b :: le(a, b) && le(b, a) ==> a == b)
  }

  predicate Tied<T>(le: (T, T) -> bool, a: T, b: T) {
    le(a, b) && le(b, a)
  }

  ghost predicate Sorted<T>(le: (T, T) -> bool, s: seq<T>) {
    forall i, j :: 0 <= i < j < |s| ==> le(s[i], s[j])
  }

  /** Puts `x` in front of the elements it does not exceed. */
  function Insert<T>(le: (T, T) -> bool, x: T, s: seq<T>): seq<T> {
    if s == [] || le(x, s[0]) then [x] + s else [s[0]] + Insert(le, x, s[1..])
  }

  function Sort<T>(le: (T, T) -> bool, s: seq<T>): seq<T> {
    if s == [] then [] else Insert(le, s[0], Sort(le, s[1..]))
  }

  /** The elements of `s` that tie with `x`, in the order they have in `s`. */
  function Class<T>(le: (T, T) -> bool, x: T, s: seq<T>): seq<T> {
    if s == [] then []
    else (if Tied(le, x, s[0]) then [s[0]] else []) + Class(le, x, s[1..])
  }

  // ----- what sorting keeps

  lemma {:induction false} InsertPermutes<T>(le: (T, T) -> bool, x: T, s: seq<T>)
    ensures multiset(Insert(le, x, s)) == multiset{x} + multiset(s)
  {
    if s != [] && !le(x, s[0]) {
      InsertPermutes(le, x, s[1..]);
      assert s == [s[0]] + s[1..];
    }
  }

  lemma {:induction false} SortPermutes<T>(le: (T, T) -> bool, s: seq<T>)
    ensures multiset(Sort(le, s)) == multiset(s)
    ensures |Sort(le, s)| == |s|
  {
    if s != [] {
      SortPermutes(le, s[1..]);
      InsertPermutes(le, s[0], Sort(le, s[1..]));
      assert s == [s[0]] + s[1..];
    }
    assert |Sort(le, s)| == |multiset(Sort(le, s))|;
  }

  lemma {:induction false} InsertSorted<T(!new)>(le: (T, T) -> bool, x: T, s: seq<T>)
    requires TotalPreorder(le) && Sorted(le, s)
    ensures Sorted(le, Insert(le, x, s))
  {
    if s != [] && !le(x, s[0]) {
      var rest := Insert(le, x, s[1..]);
      InsertSorted(le, x, s[1..]);
      InsertPermutes(le, x, s[1..]);
      forall i | 0 <= i < |rest|
        ensures le(s[0], rest[i])
      {
        assert rest[i] in multiset(rest);
        assert rest[i] == x || rest[i] in s[1..];
      }
    } else if s != [] {
      forall j | 0 <= j < |s|
        ensures le(x, s[j])
      {
        assert le(x, s[0]);
      }
    }
  }

  lemma {:induction false} SortSorted<T(!new)>(le: (T, T) -> bool, s: seq<T>)
    requires TotalPreorder(le)
    ensures Sorted(le, Sort(le, s))
  {
    if s != [] {
      SortSorted(le, s[1..]);
      InsertSorted(le, s[0], Sort(le, s[1..]));
    }
  }

  lemma {:induction false} InsertKeepsClasses<T(!new)>(le: (T, T) -> bool, x: T, y: T, s: seq<T>)
    requires TotalPreorder(le)
    ensures Class(le, x, Insert(le, y, s)) == Class(le, x, [y] + s)
  {
    assert ([y] + s)[1..] == s;
    if s != [] && !le(y, s[0]) {
      InsertKeepsClasses(le, x, y, s[1..]);
      assert ([y] + s[1..])[1..] == s[1..];
      var rest := Insert(le, y, s[1..]);
      assert ([s[0]] + rest)[1..] == rest;
      // y and s[0] are not tied, so they cannot both be tied with x
      assert !(Tied(le, x, y) && Tied(le, x, s[0]));
    }
  }

  /** Stability: tied elements keep their relative order. */
  lemma {:induction false} SortStable<T(!new)>(le: (T, T) -> bool, x: T, s: seq<T>)
    requires TotalPreorder(le)
    ensures Class(le, x, Sort(le, s)) == Class(le, x, s)
  {
    if s != [] {
      SortStable(le, x, s[1..]);
      InsertKeepsClasses(le, x, s[0], Sort(le, s[1..]));
      assert ([s[0]] + Sort(le, s[1..]))[1..] == Sort(le, s[1..]);
    }
  }

  // ----- what determines the result

  lemma {:induction false} ClassMembers<T>(le: (T, T) -> bool, x: T, s: seq<T>)
    ensures forall y :: y in Class(le, x, s) ==> y in s && Tied(le, x, y)
    ensures Class(le, x, s) == [] <==> forall i :: 0 <= i < |s| ==> !Tied(le, x, s[i])
  {
    if s != [] {
      ClassMembers(le, x, s[1..]);
      assert forall i :: 0 < i < |s| ==> s[i] == s[1..][i - 1];
    }
  }

  /** A sorted sequence is fixed by its tie classes. */
  lemma {:induction false} SortedFixedByClasses<T(!new)>(le: (T, T) -> bool, a: seq<T>, b: seq<T>)
    requires TotalPreorder(le) && Sorted(le, a) && Sorted(le, b)
    requires forall x :: Class(le, x, a) == Class(le, x, b)
    ensures a == b
  {
    if a == [] && b != [] {
      ClassMembers(le, b[0], b);
      assert false;
    } else if b == [] && a != [] {
      ClassMembers(le, a[0], a);
      assert false;
    } else if a != [] {
      FirstTied(le, a, b);
      FirstTied(le, b, a);
      assert Class(le, a[0], a)[0] == a[0] && Class(le, a[0], b)[0] == b[0];
      forall x
        ensures Class(le, x, a[1..]) == Class(le, x, b[1..])
      {
        var h := if Tied(le, x, a[0]) then [a[0]] else [];
        assert Class(le, x, a) == h + Class(le, x, a[1..]);
        assert Class(le, x, b) == h + Class(le, x, b[1..]);
        assert (h + Class(le, x, a[1..]))[|h|..] == Class(le, x, a[1..]);
      }
      SortedFixedByClasses(le, a[1..], b[1..]);
      assert a == [a[0]] + a[1..] && b == [b[0]] + b[1..];
    }
  }

  lemma FirstTied<T(!new)>(le: (T, T) -> bool, a: seq<T>, b: seq<T>)
    requires TotalPreorder(le) && Sorted(le, a) && Sorted(le, b) && a != [] && b != []
    requires forall x :: Class(le, x, a) == Class(le, x, b)
    ensures le(b[0], a[0])
  {
    assert Tied(le, a[0], a[0]);
    ClassMembers(le, a[0], a);
    ClassMembers(le, a[0], b);
    var y := Class(le, a[0], b)[0];
    assert y in b && le(y, a[0]);
    var i :| 0 <= i < |b| && b[i] == y;
    assert le(b[0], b[i]);
  }

  /** Two inputs with the same tie classes sort to the same sequence. */
  lemma SortFixedByClasses<T(!new)>(le: (T, T) -> bool, s: seq<T>, t: seq<T>)
    requires TotalPreorder(le)
    requires forall x :: Class(le, x, s) == Class(le, x, t)
    ensures Sort(le, s) == Sort(le, t)
  {
    SortSorted(le, s);
    SortSorted(le, t);
    forall x
      ensures Class(le, x, Sort(le, s)) == Class(le, x, Sort(le, t))
    {
      SortStable(le, x, s);
      SortStable(le, x, t);
    }
    SortedFixedByClasses(le, Sort(le, s), Sort(le, t));
  }

  lemma {:induction false} ClassInTotalOrder<T(!new)>(le: (T, T) -> bool, x: T, s: seq<T>)
    requires TotalOrder(le)
    ensures Class(le, x, s) == Copies(x, multiset(s)[x])
  {
    assert le(x, x);
    if s != [] {
      ClassInTotalOrder(le, x, s[1..]);
      assert s == [s[0]] + s[1..];
    }
  }

  /** Under a total order the sorted permutation of a multiset is unique. */
  lemma SortOfPermutation<T(!new)>(le: (T, T) -> bool, s: seq<T>, t: seq<T>)
    requires TotalOrder(le)
    requires multiset(s) == multiset(t)
    ensures Sort(le, s) == Sort(le, t)
  {
    forall x
      ensures Class(le, x, s) == Class(le, x, t)
    {
      ClassInTotalOrder(le, x, s);
      ClassInTotalOrder(le, x, t);
    }
    SortFixedByClasses(le, s, t);
  }
}
