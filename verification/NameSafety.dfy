/**
 Which parameter names keep the key text unambiguous, for arbitrary names on both sides: exactly
 those that are not themselves the text of two parameters, cut off behind the second name.
 */
module NameSafety {
  import opened JsText
  import opened JsonText
  import opened Sorting
  import opened Collations
  import opened CacheKeys
  import opened KeyInjectivity
  import opened KeyCollisions
  import opened NameMarks

  // ----- taking texts apart

  lemma SplitLonger(a: Text, b: Text, c: Text, d: Text)
    requires a + b == c + d && |a| <= |c|
    ensures c == a + c[|a|..] && b == c[|a|..] + d
  {
    var t := a + b;
    assert t[..|a|] == a && t[..|c|] == c && t[|a|..] == b && t[|c|..] == d;
    assert c[..|a|] == t[..|a|];
    assert t[|a|..] == c[|a|..] + d;
  }

  lemma NoShorter(v: Value, s: Text, x: Text, w: Value, t: Text)
    requires s == [] || s[0] == AMPERSAND
    requires SerializeValue(v) + s == x + [EQUALS] + (SerializeValue(w) + t)
    ensures |x| >= |SerializeValue(v)|
  {
    PrintHasNoMark(SerializeForKey(v), s);
    EncodingOpens(w);
    MarkBehind(x, SerializeValue(w), t);
  }

  /** The text of a value and what follows it, against a text that goes on with another value. */
  lemma ValueFirst(v: Value, s: Text, x: Text, w: Value, t: Text)
    requires s == [] || s[0] == AMPERSAND
    requires SerializeValue(v) + s == x + [EQUALS] + (SerializeValue(w) + t)
    ensures |x| > |SerializeValue(v)| && s != []
    ensures x == SerializeValue(v) + [AMPERSAND] + x[|SerializeValue(v)| + 1..]
    ensures s[1..] == x[|SerializeValue(v)| + 1..] + [EQUALS] + (SerializeValue(w) + t)
  {
    var e, d := SerializeValue(v), [EQUALS] + (SerializeValue(w) + t);
    NoShorter(v, s, x, w, t);
    Associative(x, [EQUALS], SerializeValue(w) + t);
    SplitLonger(e, s, x, d);
    TailAfter(e, s, x, d);
  }

  lemma TailAfter(e: Text, s: Text, x: Text, d: Text)
    requires |e| <= |x| && x == e + x[|e|..] && s == x[|e|..] + d
    requires d != [] && d[0] == EQUALS && (s == [] || s[0] == AMPERSAND)
    ensures |x| > |e| && x == e + [AMPERSAND] + x[|e| + 1..]
    ensures s != [] && s[1..] == x[|e| + 1..] + [EQUALS] + d[1..]
  {
    assert s[0] == (x[|e|..] + d)[0];
    assert x[|e|..] == [AMPERSAND] + x[|e| + 1..];
    assert d == [EQUALS] + d[1..];
  }

  lemma MarkBehind(x: Text, f: Text, t: Text)
    requires |f| >= 3 && f[0] == OPEN_BRACE && f[1] == QUOTE && f[2] == LETTER_T
    ensures MarkAt(x + [EQUALS] + (f + t), |x|)
  {
  }

  lemma CutAtSecond(ps: seq<Entry>, keys: seq<Text>)
    requires (forall k :: k in keys ==> k in Names(ps)) && |keys| >= 2
    ensures Part(keys[0], Get(ps, keys[0])) + [AMPERSAND] + keys[1] == JoinParts(ps, keys[..1]) + [AMPERSAND] + keys[1]
  {
    assert keys[..1] == [keys[0]];
  }

  lemma CutOnce(k: Text, e: Text, n: Text, x: Text, m: Text)
    requires n == k + [EQUALS] + x && x == e + [AMPERSAND] + m
    ensures n == k + [EQUALS] + e + [AMPERSAND] + m
  {
  }

  ghost predicate StrictlySorted(keys: seq<Text>) {
    Sorted(LexLe, keys) && Distinct(keys)
  }

  // ----- names that are cuts

  /** `n` reads `y=value&k` with `y` sorted before `k`. */
  ghost predicate CutAs(n: Text, y: Text, v: Value, k: Text) {
    WellFormed(v) && n == Part(y, v) + [AMPERSAND] + k && y != k && LexLe(y, k)
  }

  ghost predicate IsCutName(n: Text) {
    exists y, v, k :: CutAs(n, y, v, k)
  }

  ghost predicate SafeNames(names: seq<Text>) {
    forall n :: n in names ==> !IsCutName(n)
  }

  // ----- the last mark of a text

  lemma MarkInValue(a: Text, e: Text, i: nat)
    ensures i > |a| && MarkAt(a + [EQUALS] + e, i) ==> MarkAt(e, i - |a| - 1)
  {
  }

  lemma LastMarkIsLater(a: Text, v: Value, b: Text, w: Value)
    requires a + [EQUALS] + SerializeValue(v) == b + [EQUALS] + SerializeValue(w)
    ensures |b| <= |a|
  {
    PrintHasNoMark(SerializeForKey(v), []);
    assert SerializeValue(v) + [] == SerializeValue(v);
    EncodingOpens(w);
    MarkBehind(b, SerializeValue(w), []);
    assert b + [EQUALS] + SerializeValue(w) == b + [EQUALS] + (SerializeValue(w) + []);
    MarkInValue(a, SerializeValue(v), |b|);
  }

  /** A text that ends in `=value` determines where the value begins, and the value. */
  lemma LastMark(a: Text, v: Value, b: Text, w: Value)
    requires WellFormed(v) && WellFormed(w)
    ensures a + [EQUALS] + SerializeValue(v) == b + [EQUALS] + SerializeValue(w) <==> a == b && SameValue(v, w)
  {
    if a + [EQUALS] + SerializeValue(v) == b + [EQUALS] + SerializeValue(w) {
      LastMarkIsLater(a, v, b, w);
      LastMarkIsLater(b, w, a, v);
      SameLength(a, [EQUALS], SerializeValue(v), b, SerializeValue(w));
      ValueEncodingInjective(v, [], w, []);
    } else if SameValue(v, w) {
      SameValueSerializesAlike(v, w);
    }
  }

  lemma SameLength(a: Text, m: Text, x: Text, b: Text, y: Text)
    requires |a| == |b| && a + m + x == b + m + y
    ensures a == b && x == y && x + [] == y + []
  {
    assert (a + m + x)[..|a|] == a && (b + m + y)[..|b|] == b;
    assert (a + m + x)[|a| + |m|..] == x && (b + m + y)[|b| + |m|..] == y;
  }

  /** Exactly which calls of one parameter share their key text with a given call of two or more. */
  lemma SingleParamSharesIff(tool: Text, ps: seq<Entry>, n: Text, v: Value)
    requires WellFormed(Obj(ps)) && |ps| >= 2 && WellFormed(v)
    ensures KeyText(tool, ps) == KeyText(tool, [Entry(n, v)]) <==>
            SwallowingName(ps) == n && SameValue(LastValue(ps), v)
  {
    SortedNamesAreNames(ps);
    LastIsWellFormed(ps);
    var last := LastValue(ps);
    SwallowingText(tool, ps);
    SingleParam(tool, SwallowingName(ps), last);
    SingleParam(tool, n, v);
    if KeyText(tool, ps) == KeyText(tool, [Entry(n, v)]) {
      SameHead(tool + [COLON], SwallowingName(ps) + [EQUALS] + SerializeValue(last), n + [EQUALS] + SerializeValue(v));
    }
    LastMark(SwallowingName(ps), last, n, v);
  }

  // ----- names that are no cuts

  lemma {:induction false} LexPrefix(a: Text, b: Text)
    ensures LexLe(a, a + b)
  {
    if a != [] {
      assert (a + b)[1..] == a[1..] + b;
      LexPrefix(a[1..], b);
    }
  }

  /** A text before `a` is before every extension of `a`. */
  lemma BeforeExtension(x: Text, a: Text, b: Text)
    requires LexLe(x, a) && x != a
    ensures LexLe(x, a + b) && x != a + b
  {
    LexPrefix(a, b);
    LexTransitive(x, a, a + b);
    if x == a + b {
      LexAntisymmetric(a, x);
    }
  }

  ghost predicate Above(bound: Text, keys: seq<Text>) {
    forall k :: k in keys ==> LexLe(bound, k) && bound != k
  }

  /** Names of a well-formed list, in order and none of them a cut. */
  ghost predicate SafeKeys(ps: seq<Entry>, keys: seq<Text>) {
    && WellFormed(Obj(ps)) && (forall k :: k in keys ==> k in Names(ps))
    && StrictlySorted(keys) && SafeNames(keys)
  }

  lemma SafeTail(ps: seq<Entry>, keys: seq<Text>)
    requires SafeKeys(ps, keys) && keys != []
    ensures SafeKeys(ps, keys[1..]) && Above(keys[0], keys[1..])
    ensures !IsCutName(keys[0]) && WellFormed(Get(ps, keys[0]))
  {
    WellFormedEntry(ps, keys[0]);
  }

  /** A name opens the text, and a longer name opens it too. */
  lemma ShorterNameFirst(k: Text, y: Text, n: Text, z: Text) returns (x: Text)
    requires |k| < |n| && k + [EQUALS] + y == n + [EQUALS] + z
    ensures n == k + [EQUALS] + x && y == x + [EQUALS] + z
  {
    Associative(n, [EQUALS], z);
    SplitLonger(k + [EQUALS], y, n, [EQUALS] + z);
    x := n[|k| + 1..];
    Associative(x, [EQUALS], z);
  }

  /** The longer name takes a whole part and the `&` behind it. */
  lemma LongerNameTakesPart(k: Text, v: Value, s: Text, n: Text, w: Value, t: Text) returns (m: Text)
    requires |k| < |n| && (s == [] || s[0] == AMPERSAND)
    requires k + [EQUALS] + (SerializeValue(v) + s) == n + [EQUALS] + (SerializeValue(w) + t)
    ensures n == Part(k, v) + [AMPERSAND] + m
    ensures s != [] && s[1..] == m + [EQUALS] + (SerializeValue(w) + t)
  {
    var x := ShorterNameFirst(k, SerializeValue(v) + s, n, SerializeValue(w) + t);
    ValueFirst(v, s, x, w, t);
    m := x[|SerializeValue(v)| + 1..];
    CutOnce(k, SerializeValue(v), n, x, m);
  }

  lemma NotACut(n: Text, y: Text, v: Value, k: Text)
    requires !IsCutName(n) && WellFormed(v) && n == Part(y, v) + [AMPERSAND] + k
    ensures LexLe(k, y)
  {
    LexTotal(k, y);
    assert LexLe(y, k) && y != k ==> CutAs(n, y, v, k);
    LexReflexive(y);
  }

  lemma AfterStarts(ps: seq<Entry>, keys: seq<Text>)
    requires forall k :: k in keys ==> k in Names(ps)
    ensures var s := After(ps, keys);
            (s == [] || s[0] == AMPERSAND) && (s != [] ==> keys != [] && s[1..] == JoinParts(ps, keys))
  {
  }

  /**
   The parts of one list cannot begin inside a name of the other that overhangs them by a text `k`
   sorted no later than all that follows.
   */
  lemma {:induction false} NoOverhang(ps: seq<Entry>, keys: seq<Text>, qs: seq<Entry>, others: seq<Text>,
                                      k: Text, w: Value, bound: Text)
    requires SafeKeys(ps, keys) && SafeKeys(qs, others) && WellFormed(w)
    requires Above(bound, keys) && Above(bound, others) && LexLe(k, bound)
    ensures JoinParts(ps, keys) != k + [EQUALS] + (SerializeValue(w) + After(qs, others))
    decreases |keys| + |others|
  {
    if JoinParts(ps, keys) == k + [EQUALS] + (SerializeValue(w) + After(qs, others)) {
      assert keys != [];
      var a, rest, v := keys[0], keys[1..], Get(ps, keys[0]);
      JoinUnfolds(ps, keys);
      SafeTail(ps, keys);
      AfterStarts(qs, others);
      NameOutlasts(a, SerializeValue(v) + After(ps, rest), k, SerializeValue(w) + After(qs, others), bound);
      var m := LongerNameTakesPart(k, w, After(qs, others), a, v, After(ps, rest));
      NotACut(a, k, w, m);
      LexTransitive(m, k, bound);
      NoOverhang(qs, others, ps, rest, m, v, bound);
    }
  }

  lemma NameOutlasts(a: Text, y: Text, k: Text, z: Text, bound: Text)
    requires a + [EQUALS] + y == k + [EQUALS] + z
    requires LexLe(k, bound) && LexLe(bound, a) && bound != a
    ensures |k| < |a|
  {
    if |a| <= |k| {
      Associative(a, [EQUALS], y);
      Associative(k, [EQUALS], z);
      SplitLonger(a, [EQUALS] + y, k, [EQUALS] + z);
      LexPrefix(a, k[|a|..]);
      LexTransitive(a, k, bound);
      LexAntisymmetric(a, bound);
    }
  }

  lemma FirstNameIsNoLonger(ps: seq<Entry>, keys: seq<Text>, qs: seq<Entry>, others: seq<Text>)
    requires SafeKeys(ps, keys) && SafeKeys(qs, others) && keys != [] && others != []
    requires JoinParts(ps, keys) == JoinParts(qs, others)
    ensures |others[0]| <= |keys[0]|
  {
    var k, n := keys[0], others[0];
    if |n| > |k| {
      var v, w := Get(ps, k), Get(qs, n);
      JoinUnfolds(ps, keys);
      JoinUnfolds(qs, others);
      SafeTail(ps, keys);
      SafeTail(qs, others);
      AfterStarts(ps, keys[1..]);
      var m := LongerNameTakesPart(k, v, After(ps, keys[1..]), n, w, After(qs, others[1..]));
      NotACut(n, k, v, m);
      AboveExtension(k, n, m, v, others[1..]);
      NoOverhang(ps, keys[1..], qs, others[1..], m, w, k);
    }
  }

  lemma Reassociate(a: Text, b: Text, c: Text, d: Text, e: Text)
    ensures a + b + c + d + e == a + (b + c + d + e)
  {
  }

  /** What lies above an extension of `k` lies above `k`. */
  lemma AboveExtension(k: Text, n: Text, m: Text, v: Value, keys: seq<Text>)
    requires n == Part(k, v) + [AMPERSAND] + m && Above(n, keys)
    ensures Above(k, keys)
  {
    Reassociate(k, [EQUALS], SerializeValue(v), [AMPERSAND], m);
    LexPrefix(k, [EQUALS] + SerializeValue(v) + [AMPERSAND] + m);
    forall x | x in keys
      ensures LexLe(k, x) && k != x
    {
      LexTransitive(k, n, x);
      if k == x {
        LexAntisymmetric(k, n);
      }
    }
  }

  lemma SameFirstName(ps: seq<Entry>, keys: seq<Text>, qs: seq<Entry>, others: seq<Text>)
    requires SafeKeys(ps, keys) && SafeKeys(qs, others) && keys != [] && others != []
    requires JoinParts(ps, keys) == JoinParts(qs, others)
    ensures keys[0] == others[0]
  {
    FirstNameIsNoLonger(ps, keys, qs, others);
    FirstNameIsNoLonger(qs, others, ps, keys);
    JoinUnfolds(ps, keys);
    JoinUnfolds(qs, others);
    SameLength(keys[0], [EQUALS], SerializeValue(Get(ps, keys[0])) + After(ps, keys[1..]),
               others[0], SerializeValue(Get(qs, others[0])) + After(qs, others[1..]));
  }

  lemma SafeStep(ps: seq<Entry>, keys: seq<Text>, qs: seq<Entry>, others: seq<Text>)
    requires SafeKeys(ps, keys) && SafeKeys(qs, others) && keys != [] && others != []
    requires JoinParts(ps, keys) == JoinParts(qs, others)
    ensures keys[0] == others[0] && Canonical(Get(ps, keys[0])) == Canonical(Get(qs, others[0]))
    ensures SafeKeys(ps, keys[1..]) && SafeKeys(qs, others[1..])
    ensures JoinParts(ps, keys[1..]) == JoinParts(qs, others[1..])
  {
    SameFirstName(ps, keys, qs, others);
    SameNamePartsAgree(ps, keys, qs, others);
    SafeTail(ps, keys);
    SafeTail(qs, others);
    AfterAgrees(ps, keys[1..], qs, others[1..]);
  }

  /** Equal joined texts over safe names have the same names and the same values under them. */
  lemma {:induction false} SafePartsAgree(ps: seq<Entry>, keys: seq<Text>, qs: seq<Entry>, others: seq<Text>)
    requires SafeKeys(ps, keys) && SafeKeys(qs, others)
    requires JoinParts(ps, keys) == JoinParts(qs, others)
    ensures keys == others
    ensures forall k :: k in keys ==> Canonical(Get(ps, k)) == Canonical(Get(qs, k))
    decreases |keys|
  {
    if keys == [] && others != [] {
      JoinUnfolds(qs, others);
    } else if keys != [] && others == [] {
      JoinUnfolds(ps, keys);
    } else if keys != [] {
      SafeStep(ps, keys, qs, others);
      SafePartsAgree(ps, keys[1..], qs, others[1..]);
      assert keys == [keys[0]] + keys[1..] && others == [others[0]] + others[1..];
      forall k | k in keys
        ensures Canonical(Get(ps, k)) == Canonical(Get(qs, k))
      {
        assert k == keys[0] || k in keys[1..];
      }
    }
  }

  // ----- exactly which names are dangerous

  lemma SafeSorted(ps: seq<Entry>)
    requires WellFormed(Obj(ps)) && SafeNames(Names(ps))
    ensures SafeKeys(ps, SortedNames(ps))
  {
    SortedNamesAreNames(ps);
    LexIsTotalOrder();
    SortSorted(LexLe, Names(ps));
    DistinctSorted(ps);
  }

  /** Over names that are no cuts the key text determines the tool and the parameters. */
  lemma SafeNamesInjective(tool: Text, ps: seq<Entry>, other: Text, qs: seq<Entry>)
    requires WellFormed(Obj(ps)) && WellFormed(Obj(qs))
    requires COLON !in tool && COLON !in other
    requires SafeNames(Names(ps)) && SafeNames(Names(qs))
    ensures KeyText(tool, ps) == KeyText(other, qs) <==> tool == other && SameParams(ps, qs)
  {
    if tool == other && SameParams(ps, qs) {
      KeyTextIgnoresOrder(tool, ps, qs);
    }
    if KeyText(tool, ps) == KeyText(other, qs) {
      SplitAtFirst(tool, NormalizeParams(ps), other, NormalizeParams(qs), COLON);
      SafeSorted(ps);
      SafeSorted(qs);
      SortedNamesAreNames(ps);
      SortedNamesAreNames(qs);
      SafePartsAgree(ps, SortedNames(ps), qs, SortedNames(qs));
      PairsAgree(ps, qs);
      SameObjects(ps, qs);
    }
  }

  /** A name without '=' is no cut. */
  lemma PlainNamesAreSafe(names: seq<Text>)
    requires NoEquals(names)
    ensures SafeNames(names)
  {
    forall n | n in names
      ensures !IsCutName(n)
    {
      if y, v, k :| CutAs(n, y, v, k) {
        CutHasEquals(n, y, v, k);
      }
    }
  }

  lemma CutHasEquals(n: Text, y: Text, v: Value, k: Text)
    requires CutAs(n, y, v, k)
    ensures EQUALS in n
  {
    assert n[|y|] == EQUALS;
  }

  lemma SecondOn(ps: seq<Entry>, keys: seq<Text>) returns (more: Text)
    requires (forall k :: k in keys ==> k in Names(ps)) && |keys| >= 3
    ensures CutText(ps, keys) == Part(keys[0], Get(ps, keys[0])) + [AMPERSAND] + (keys[1] + more)
  {
    var n := |keys| - 1;
    var rest := keys[..n][1..];
    var first, tail := Part(keys[0], Get(ps, keys[0])), SerializeValue(Get(ps, keys[1])) + After(ps, rest[1..]);
    JoinFirst(ps, keys[..n]);
    JoinUnfolds(ps, rest);
    assert rest[0] == keys[1];
    assert JoinParts(ps, keys[..n]) == first + [AMPERSAND] + (keys[1] + [EQUALS] + tail);
    more := [EQUALS] + tail + [AMPERSAND] + keys[n];
    RegroupParts(first, [AMPERSAND], keys[1], [EQUALS], tail, keys[n]);
  }

  lemma RegroupParts(a: Text, m: Text, b: Text, e: Text, c: Text, d: Text)
    ensures a + m + (b + e + c) + m + d == a + m + (b + (e + c + m + d))
  {
  }

  lemma JoinedIsCut(ps: seq<Entry>, keys: seq<Text>)
    requires WellFormed(Obj(ps)) && (forall k :: k in keys ==> k in Names(ps)) && StrictlySorted(keys) && |keys| >= 2
    ensures IsCutName(CutText(ps, keys))
  {
    var y, v := keys[0], Get(ps, keys[0]);
    WellFormedEntry(ps, y);
    assert LexLe(y, keys[1]) && y != keys[1];
    if |keys| == 2 {
      CutAtSecond(ps, keys);
      assert CutAs(CutText(ps, keys), y, v, keys[1]);
    } else {
      var more := SecondOn(ps, keys);
      CutByExtension(CutText(ps, keys), y, v, keys[1], more);
    }
  }

  lemma CutByExtension(n: Text, y: Text, v: Value, k: Text, more: Text)
    requires WellFormed(v) && LexLe(y, k) && y != k && n == Part(y, v) + [AMPERSAND] + (k + more)
    ensures IsCutName(n)
  {
    BeforeExtension(y, k, more);
    assert CutAs(n, y, v, k + more);
  }

  /** The name that swallows a list of two or more parameters is a cut. */
  lemma SwallowingNameIsCut(ps: seq<Entry>)
    requires WellFormed(Obj(ps)) && |ps| >= 2
    ensures IsCutName(SwallowingName(ps))
  {
    SortedNamesAreNames(ps);
    LexIsTotalOrder();
    SortSorted(LexLe, Names(ps));
    DistinctSorted(ps);
    JoinedIsCut(ps, SortedNames(ps));
  }

  /** Two parameters, sorted. */
  lemma TwoSorted(tool: Text, y: Text, v: Value, k: Text, w: Value)
    requires LexLe(y, k) && y != k
    ensures var ps := [Entry(y, v), Entry(k, w)];
            && Names(ps) == [y, k] && SwallowingName(ps) == Part(y, v) + [AMPERSAND] + k && LastValue(ps) == w
  {
    var ps := [Entry(y, v), Entry(k, w)];
    assert Names(ps) == [y, k] && Names(ps)[1..] == [k];
    assert Sort(LexLe, [k]) == [k] by {
      assert [k][1..] == [];
    }
    assert SortedNames(ps) == [y, k];
    assert Get(ps, y) == v && Get(ps, k) == w;
    assert [y, k][..1] == [y];
    assert JoinParts(ps, [y]) == Part(y, v);
  }

  /** A name can stand in a call of one parameter that shares its key text with another call iff it is a cut. */
  lemma CutNameCollidesIff(tool: Text, n: Text)
    ensures (exists ps, v :: Shares(tool, ps, n, v)) <==> IsCutName(n)
  {
    if ps, v :| Shares(tool, ps, n, v) {
      SharedListIsLong(tool, ps, n, v);
      SingleParamSharesIff(tool, ps, n, v);
      SwallowingNameIsCut(ps);
    }
    if y, v, k :| CutAs(n, y, v, k) {
      CutShares(tool, n, y, v, k);
      assert Shares(tool, [Entry(y, v), Entry(k, Null)], n, Null);
    }
  }

  /** The call with the one parameter `n` and a different one have the same key text. */
  ghost predicate Shares(tool: Text, ps: seq<Entry>, n: Text, v: Value) {
    && WellFormed(Obj(ps)) && WellFormed(v) && !SameParams(ps, [Entry(n, v)])
    && KeyText(tool, ps) == KeyText(tool, [Entry(n, v)])
  }

  lemma SharedListIsLong(tool: Text, ps: seq<Entry>, n: Text, v: Value)
    requires Shares(tool, ps, n, v)
    ensures |ps| >= 2
  {
    SingleParam(tool, n, v);
    SameHead(tool + [COLON], NormalizeParams(ps), n + [EQUALS] + SerializeValue(v));
    if |ps| == 1 {
      var m, w := ps[0].name, ps[0].value;
      assert ps == [Entry(m, w)];
      SingleParam(tool, m, w);
      SameHead(tool + [COLON], m + [EQUALS] + SerializeValue(w), n + [EQUALS] + SerializeValue(v));
      LastMark(m, w, n, v);
    }
  }

  lemma CutShares(tool: Text, n: Text, y: Text, v: Value, k: Text)
    requires CutAs(n, y, v, k)
    ensures Shares(tool, [Entry(y, v), Entry(k, Null)], n, Null)
  {
    var ps := [Entry(y, v), Entry(k, Null)];
    TwoSorted(tool, y, v, k, Null);
    SingleParamSharesIff(tool, ps, n, Null);
    SingleParam(tool, n, Null);
    assert y in Names(ps) && k in Names(ps);
  }

  // ----- vocabularies

  ghost predicate Over(allowed: Text -> bool, ps: seq<Entry>) {
    WellFormed(Obj(ps)) && forall n :: n in Names(ps) ==> allowed(n)
  }

  /** With a cut, a vocabulary has the two names it is cut into. */
  ghost predicate ClosedUnderCuts(allowed: Text -> bool) {
    forall n, y, v, k :: allowed(n) && CutAs(n, y, v, k) ==> allowed(y) && allowed(k)
  }

  ghost predicate Unambiguous(tool: Text, allowed: Text -> bool) {
    forall ps, qs ::
      Over(allowed, ps) && Over(allowed, qs) && KeyText(tool, ps) == KeyText(tool, qs) ==> SameParams(ps, qs)
  }

  /**
   A vocabulary without cuts is unambiguous. One that has, with every cut, the names it is cut into is
   unambiguous only if it has no cut.
   */
  lemma VocabularyIsUnambiguousIff(tool: Text, allowed: Text -> bool)
    ensures (forall n :: allowed(n) ==> !IsCutName(n)) ==> Unambiguous(tool, allowed)
    ensures ClosedUnderCuts(allowed) && Unambiguous(tool, allowed) ==> forall n :: allowed(n) ==> !IsCutName(n)
  {
    if forall n :: allowed(n) ==> !IsCutName(n) {
      forall ps, qs | Over(allowed, ps) && Over(allowed, qs) && KeyText(tool, ps) == KeyText(tool, qs)
        ensures SameParams(ps, qs)
      {
        SameToolSafe(tool, ps, qs);
      }
    }
    if ClosedUnderCuts(allowed) && Unambiguous(tool, allowed) {
      forall n | allowed(n)
        ensures !IsCutName(n)
      {
        if y, v, k :| CutAs(n, y, v, k) {
          CutMakesAmbiguous(tool, allowed, n, y, v, k);
        }
      }
    }
  }

  lemma CutMakesAmbiguous(tool: Text, allowed: Text -> bool, n: Text, y: Text, v: Value, k: Text)
    requires CutAs(n, y, v, k) && allowed(n) && allowed(y) && allowed(k)
    ensures !Unambiguous(tool, allowed)
  {
    var ps, q := [Entry(y, v), Entry(k, Null)], [Entry(n, Null)];
    CutShares(tool, n, y, v, k);
    assert Names(ps) == [y, k] && Names(q) == [n];
    assert Over(allowed, ps) && Over(allowed, q);
  }

  lemma SameToolSafe(tool: Text, ps: seq<Entry>, qs: seq<Entry>)
    requires WellFormed(Obj(ps)) && WellFormed(Obj(qs)) && SafeNames(Names(ps)) && SafeNames(Names(qs))
    requires KeyText(tool, ps) == KeyText(tool, qs)
    ensures SameParams(ps, qs)
  {
    SameHead(tool + [COLON], NormalizeParams(ps), NormalizeParams(qs));
    SafeNamesInjective([], ps, [], qs);
  }
}
