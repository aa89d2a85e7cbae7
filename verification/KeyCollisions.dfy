/**
 Where the key text stops being injective: parameter names are not escaped, and neither is
 the tool name.
 */
module KeyCollisions {
  import opened JsText
  import opened JsonText
  import opened Sorting
  import opened CacheKeys
  import opened KeyInjectivity

  lemma {:induction false} JoinAppend(es: seq<Entry>, keys: seq<Text>, k: Text)
    requires keys != [] && k in Names(es) && forall key :: key in keys ==> key in Names(es)
    ensures forall key :: key in keys + [k] ==> key in Names(es)
    ensures JoinParts(es, keys + [k]) == JoinParts(es, keys) + [AMPERSAND] + Part(k, Get(es, k))
  {
    var first := Part(keys[0], Get(es, keys[0]));
    assert (keys + [k])[1..] == keys[1..] + [k];
    JoinFirst(es, keys + [k]);
    if |keys| == 1 {
      assert keys[1..] + [k] == [k];
    } else {
      JoinFirst(es, keys);
      JoinAppend(es, keys[1..], k);
      Append3(first, [AMPERSAND], JoinParts(es, keys[1..]), [AMPERSAND], Part(k, Get(es, k)));
    }
  }

  lemma JoinFirst(es: seq<Entry>, keys: seq<Text>)
    requires |keys| >= 2 && forall k :: k in keys ==> k in Names(es)
    ensures JoinParts(es, keys) == Part(keys[0], Get(es, keys[0])) + [AMPERSAND] + JoinParts(es, keys[1..])
  {
  }

  lemma JoinSplitsLast(es: seq<Entry>, keys: seq<Text>)
    requires |keys| >= 2 && forall k :: k in keys ==> k in Names(es)
    ensures var n := |keys| - 1;
            JoinParts(es, keys) == JoinParts(es, keys[..n]) + [AMPERSAND] + Part(keys[n], Get(es, keys[n]))
  {
    var n := |keys| - 1;
    assert keys == keys[..n] + [keys[n]];
    JoinAppend(es, keys[..n], keys[n]);
  }

  lemma Append3(a: Text, b: Text, c: Text, d: Text, e: Text)
    ensures a + b + (c + d + e) == a + b + c + d + e
  {
  }

  /** The joined parts, cut off behind the last name. */
  function CutText(es: seq<Entry>, keys: seq<Text>): Text
    requires |keys| >= 2 && forall k :: k in keys ==> k in Names(es)
  {
    var n := |keys| - 1;
    JoinParts(es, keys[..n]) + [AMPERSAND] + keys[n]
  }

  lemma CutTextGoesOn(es: seq<Entry>, keys: seq<Text>)
    requires |keys| >= 2 && forall k :: k in keys ==> k in Names(es)
    ensures JoinParts(es, keys) == CutText(es, keys) + [EQUALS] + SerializeValue(Get(es, keys[|keys| - 1]))
  {
    var n := |keys| - 1;
    JoinSplitsLast(es, keys);
    Append4(JoinParts(es, keys[..n]), [AMPERSAND], keys[n], [EQUALS], SerializeValue(Get(es, keys[n])));
  }

  /** The name under which all parts but the last value disappear. */
  function SwallowingName(ps: seq<Entry>): Text
    requires |ps| >= 2
  {
    SortedNamesAreNames(ps);
    CutText(ps, SortedNames(ps))
  }

  function LastValue(ps: seq<Entry>): Value
    requires |ps| >= 2
  {
    SortedNamesAreNames(ps);
    var keys := SortedNames(ps);
    Get(ps, keys[|keys| - 1])
  }

  lemma NormalizedByCut(ps: seq<Entry>)
    requires |ps| >= 2
    ensures NormalizeParams(ps) == SwallowingName(ps) + [EQUALS] + SerializeValue(LastValue(ps))
  {
    SortedNamesAreNames(ps);
    var keys := SortedNames(ps);
    var cut, e := CutText(ps, keys), SerializeValue(Get(ps, keys[|keys| - 1]));
    CutTextGoesOn(ps, keys);
    assert NormalizeParams(ps) == cut + [EQUALS] + e;
  }

  lemma SwallowingText(tool: Text, ps: seq<Entry>)
    requires |ps| >= 2
    ensures KeyText(tool, [Entry(SwallowingName(ps), LastValue(ps))]) == KeyText(tool, ps)
  {
    NormalizedByCut(ps);
    SingleParam(tool, SwallowingName(ps), LastValue(ps));
  }

  lemma Append4(a: Text, b: Text, c: Text, d: Text, e: Text)
    ensures a + b + (c + d + e) == (a + b + c) + d + e
  {
  }

  lemma SingleParam(tool: Text, name: Text, v: Value)
    ensures KeyText(tool, [Entry(name, v)]) == tool + [COLON] + (name + [EQUALS] + SerializeValue(v))
    ensures Names([Entry(name, v)]) == [name]
  {
    var ps := [Entry(name, v)];
    assert Names(ps) == [name];
    assert Sort(LexLe, [name][1..]) == [];
    assert SortedNames(ps) == [name];
    assert Get(ps, name) == v;
    assert JoinParts(ps, [name]) == Part(name, v);
  }

  /**
   Without the restriction on names, every call with two or more parameters shares its key text
   with a call that has a single parameter.
   */
  lemma UnrestrictedNamesCollide(tool: Text, ps: seq<Entry>)
    requires WellFormed(Obj(ps)) && |ps| >= 2
    ensures exists name: Text, v: Value ::
              && KeyText(tool, [Entry(name, v)]) == KeyText(tool, ps)
              && WellFormed(Obj([Entry(name, v)]))
              && !SameParams(ps, [Entry(name, v)])
  {
    SwallowingText(tool, ps);
    LastIsWellFormed(ps);
    OneIsNotTwo(ps, SwallowingName(ps), LastValue(ps));
  }

  lemma LastIsWellFormed(ps: seq<Entry>)
    requires WellFormed(Obj(ps)) && |ps| >= 2
    ensures WellFormed(LastValue(ps))
  {
    SortedNamesAreNames(ps);
    var keys := SortedNames(ps);
    WellFormedEntry(ps, keys[|keys| - 1]);
  }

  lemma OneIsNotTwo(ps: seq<Entry>, name: Text, v: Value)
    requires WellFormed(Obj(ps)) && |ps| >= 2 && WellFormed(v)
    ensures var q := [Entry(name, v)]; WellFormed(Obj(q)) && !SameParams(ps, q)
  {
    assert Names([Entry(name, v)]) == [name];
    assert Names(ps)[0] != Names(ps)[1];
    assert Names(ps)[0] in Names(ps) && Names(ps)[1] in Names(ps);
  }

  /**
   Two different tool names without '=' can share a key text exactly when one of them is the
   other followed by ':' and more.
   */
  lemma ToolsCollideIff(tool: Text, other: Text)
    requires tool != other && EQUALS !in tool && EQUALS !in other
    ensures (exists ps, qs ::
              && WellFormed(Obj(ps)) && WellFormed(Obj(qs)) && NoEquals(Names(ps)) && NoEquals(Names(qs))
              && KeyText(tool, ps) == KeyText(other, qs))
            <==> tool + [COLON] <= other || other + [COLON] <= tool
  {
    if ps, qs :|
      && WellFormed(Obj(ps)) && WellFormed(Obj(qs)) && NoEquals(Names(ps)) && NoEquals(Names(qs))
      && KeyText(tool, ps) == KeyText(other, qs)
    {
      LongerExtends(tool, NormalizeParams(ps), other, NormalizeParams(qs));
    }
    if tool + [COLON] <= other {
      ExtensionCollides(tool, other);
    } else if other + [COLON] <= tool {
      ExtensionCollides(other, tool);
    }
  }

  lemma LongerExtends(a: Text, x: Text, b: Text, y: Text)
    requires a != b && a + [COLON] + x == b + [COLON] + y
    ensures a + [COLON] <= b || b + [COLON] <= a
  {
    var t := a + [COLON] + x;
    assert t[..|a|] == a && t[..|b|] == b && t[|a|] == COLON && t[|b|] == COLON;
    if |a| < |b| {
      assert t[..|a| + 1] == a + [COLON] && b[..|a| + 1] == t[..|b|][..|a| + 1];
    } else if |b| < |a| {
      assert t[..|b| + 1] == b + [COLON] && a[..|b| + 1] == t[..|a|][..|b| + 1];
    }
  }

  lemma ExtensionCollides(tool: Text, other: Text)
    requires tool + [COLON] <= other && EQUALS !in other
    ensures exists ps, qs ::
              && WellFormed(Obj(ps)) && WellFormed(Obj(qs)) && NoEquals(Names(ps)) && NoEquals(Names(qs))
              && KeyText(tool, ps) == KeyText(other, qs)
  {
    var u := other[|tool| + 1..];
    var name := u + [COLON];
    var ps, qs := [Entry(name, Null)], [Entry([], Null)];
    assert other == tool + [COLON] + u;
    ExtensionText(tool, u);
    NullParam(name);
    NullParam([]);
    assert EQUALS !in u;
    assert KeyText(tool, ps) == KeyText(other, qs);
  }

  lemma NullParam(name: Text)
    requires EQUALS !in name
    ensures var ps := [Entry(name, Null)]; WellFormed(Obj(ps)) && NoEquals(Names(ps))
  {
    assert Names([Entry(name, Null)]) == [name];
  }

  lemma ExtensionText(tool: Text, u: Text)
    ensures KeyText(tool, [Entry(u + [COLON], Null)]) == KeyText(tool + [COLON] + u, [Entry([], Null)])
  {
    var e := SerializeValue(Null);
    SingleParam(tool, u + [COLON], Null);
    SingleParam(tool + [COLON] + u, [], Null);
    Shift(tool, u, [COLON], [EQUALS], e);
  }

  lemma Shift(tool: Text, u: Text, colon: Text, equals: Text, e: Text)
    ensures tool + colon + (u + colon + equals + e) == tool + colon + u + colon + ([] + equals + e)
  {
  }
}
