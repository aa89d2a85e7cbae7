/**
 Cache keys (src/cache/keys.ts): a nested value becomes tagged JSON with sorted object keys,
 the parameters become sorted name=value parts, and the whole text is hashed.
 */
module CacheKeys {
  import opened JsText
  import opened JsonText
  import opened Sorting
  import opened Collations

  /**
   A JavaScript value as the serialiser sees it. `Other` is any value of a remaining type, known
   by its conversion to a string. Object entries are listed in property order.
   */
  datatype Value =
    | Null
    | Undefined
    | Str(s: Text)
    | Num(n: Number)
    | Bool(b: bool)
    | Arr(items: seq<Value>)
    | Obj(entries: seq<Entry>)
    | Other(text: Text)

  datatype Entry = Entry(name: Text, value: Value)

  const EQUALS: CodeUnit := 0x3D
  const AMPERSAND: CodeUnit := 0x26

  function Names(es: seq<Entry>): (names: seq<Text>)
    ensures |names| == |es|
    ensures forall i :: 0 <= i < |es| ==> names[i] == es[i].name
  {
    seq(|es|, i requires 0 <= i < |es| => es[i].name)
  }

  predicate Distinct<T(==)>(s: seq<T>) {
    forall i, j :: 0 <= i < j < |s| ==> s[i] != s[j]
  }

  /** A JavaScript object never has two properties of one name. */
  predicate WellFormed(v: Value)
    decreases v
  {
    match v
    case Arr(items) => forall i | 0 <= i < |items| :: WellFormed(items[i])
    case Obj(es) => Distinct(Names(es)) && forall i | 0 <= i < |es| :: WellFormed(es[i].value)
    case _ => true
  }

  /** The position of a property. */
  function IndexOf(names: seq<Text>, name: Text): (i: nat)
    requires name in names
    ensures i < |names| && names[i] == name && name !in names[..i]
  {
    if names[0] == name then 0 else
      var i := IndexOf(names[1..], name);
      assert names[..i + 1] == [names[0]] + names[1..][..i];
      1 + i
  }

  function Get(es: seq<Entry>, name: Text): (v: Value)
    requires name in Names(es)
    ensures v < Obj(es)
  {
    es[IndexOf(Names(es), name)].value
  }

  // ----- src/cache/keys.ts

  /** `{ t: tag }` or `{ t: tag, v: payload }`. */
  function Bare(tag: string): Json {
    JObject([Member(Units("t"), JString(Units(tag)))])
  }

  function Tagged(tag: string, payload: Json): Json {
    JObject([Member(Units("t"), JString(Units(tag))), Member(Units("v"), payload)])
  }

  function SortedNames(es: seq<Entry>): seq<Text> {
    Sort(LexLe, Names(es))
  }

  lemma SortedNamesAreNames(es: seq<Entry>)
    ensures forall k :: k in SortedNames(es) <==> k in Names(es)
    ensures |SortedNames(es)| == |es|
  {
    SortPermutes(LexLe, Names(es));
    forall k
      ensures k in SortedNames(es) <==> k in Names(es)
    {
      assert k in SortedNames(es) <==> k in multiset(SortedNames(es));
      assert k in Names(es) <==> k in multiset(Names(es));
    }
  }

  function SerializeForKey(v: Value): Json
    decreases v, 1, 0
  {
    match v
    case Null => Bare("null")
    case Undefined => Bare("undefined")
    case Str(s) => Tagged("string", JString(s))
    case Num(n) => Tagged("number", JNumber(n))
    case Bool(b) => Tagged("boolean", JBool(b))
    case Arr(items) => Tagged("array", JArray(SerializeItems(items)))
    case Obj(es) =>
      SortedNamesAreNames(es);
      Tagged("object", JArray(SerializeEntries(v, SortedNames(es))))
    case Other(text) => Tagged("string", JString(text))
  }

  function SerializeItems(items: seq<Value>): (r: seq<Json>)
    ensures |r| == |items|
    decreases items, 0, 0
  {
    if items == [] then [] else [SerializeForKey(items[0])] + SerializeItems(items[1..])
  }

  /** The pairs `[key, serialized]` of an object, in the order of `keys`. */
  function SerializeEntries(v: Value, keys: seq<Text>): (r: seq<Json>)
    requires v.Obj? && forall k :: k in keys ==> k in Names(v.entries)
    ensures |r| == |keys|
    decreases v, 0, |keys|
  {
    if keys == [] then []
    else [JArray([JString(keys[0]), SerializeForKey(Get(v.entries, keys[0]))])] + SerializeEntries(v, keys[1..])
  }

  function SerializeValue(v: Value): Text {
    Print(SerializeForKey(v))
  }

  /** One `name=value` part. */
  function Part(name: Text, v: Value): Text {
    name + [EQUALS] + SerializeValue(v)
  }

  function JoinParts(es: seq<Entry>, keys: seq<Text>): Text
    requires forall k :: k in keys ==> k in Names(es)
  {
    if keys == [] then []
    else if |keys| == 1 then Part(keys[0], Get(es, keys[0]))
    else Part(keys[0], Get(es, keys[0])) + [AMPERSAND] + JoinParts(es, keys[1..])
  }

  function NormalizeParams(params: seq<Entry>): Text {
    SortedNamesAreNames(params);
    JoinParts(params, SortedNames(params))
  }

  /** The text that is hashed. */
  function KeyText(tool: Text, params: seq<Entry>): Text {
    tool + [COLON] + NormalizeParams(params)
  }

  function BuildCacheKey(sha256Hex: Text -> Text, tool: Text, params: seq<Entry>): Text {
    Units("ce:") + sha256Hex(KeyText(tool, params))
  }

  // ----- when two values are the same, up to key order and what JSON cannot express

  predicate SameNumber(m: Number, n: Number) {
    match (m, n)
    case (Finite(a), Finite(b)) => a == b
    case (Finite(a), NegativeZero) => a == ZERO
    case (NegativeZero, Finite(b)) => b == ZERO
    case (NegativeZero, NegativeZero) => true
    case (Finite(_), _) => false
    case (NegativeZero, _) => false
    case (_, Finite(_)) => false
    case (_, NegativeZero) => false
    case _ => true
  }

  ghost predicate SameValue(v: Value, w: Value)
    decreases v
  {
    match v
    case Null => w.Null?
    case Undefined => w.Undefined?
    case Str(s) => (w.Str? && w.s == s) || (w.Other? && w.text == s)
    case Other(s) => (w.Str? && w.s == s) || (w.Other? && w.text == s)
    case Num(n) => w.Num? && SameNumber(n, w.n)
    case Bool(b) => w == v
    case Arr(items) =>
      w.Arr? && |w.items| == |items| && forall i | 0 <= i < |items| :: SameValue(items[i], w.items[i])
    case Obj(es) =>
      && w.Obj? && SameNames(es, w.entries)
      && forall k | k in Names(es) :: SameValue(Get(es, k), Get(w.entries, k))
  }

  ghost predicate SameNames(es: seq<Entry>, fs: seq<Entry>) {
    forall k :: k in Names(es) <==> k in Names(fs)
  }

  // ----- the tree determines the value

  lemma {:induction false} SerializedItem(items: seq<Value>, i: nat)
    requires i < |items|
    ensures SerializeItems(items)[i] == SerializeForKey(items[i])
  {
    if i > 0 {
      SerializedItem(items[1..], i - 1);
    }
  }

  lemma {:induction false} SerializedEntry(v: Value, keys: seq<Text>, i: nat)
    requires v.Obj? && forall k :: k in keys ==> k in Names(v.entries)
    requires i < |keys|
    ensures SerializeEntries(v, keys)[i] == JArray([JString(keys[i]), SerializeForKey(Get(v.entries, keys[i]))])
  {
    if i > 0 {
      SerializedEntry(v, keys[1..], i - 1);
    }
  }

  lemma {:induction false} PrintedItem(items: seq<Json>, i: nat)
    requires i < |items|
    ensures PrintedItems(items)[i] == Printed(items[i])
  {
    if i > 0 {
      PrintedItem(items[1..], i - 1);
    }
  }

  /** What is left of the serialised tree once printed. */
  function Canonical(v: Value): Json {
    Printed(SerializeForKey(v))
  }

  lemma PrintedTag(tag: string, payload: Json)
    ensures Printed(Tagged(tag, payload)) == Tagged(tag, Printed(payload))
    ensures Printed(Bare(tag)) == Bare(tag)
  {
    var t, p := Member(Units("t"), JString(Units(tag))), Member(Units("v"), payload);
    assert [t, p][1..] == [p] && [p][1..] == [] && [t][1..] == [];
    assert PrintedMembers([]) == [];
    assert PrintedMembers([p]) == [Member(p.name, Printed(payload))] + [];
    assert PrintedMembers([t]) == [t] + [];
    assert PrintedMembers([t, p]) == [t] + PrintedMembers([p]);
  }

  function CanonicalItems(items: seq<Value>): (cs: seq<Json>)
    ensures |cs| == |items|
  {
    PrintedItems(SerializeItems(items))
  }

  function CanonicalPairs(es: seq<Entry>): (cs: seq<Json>)
    ensures |cs| == |es|
  {
    SortedNamesAreNames(es);
    PrintedItems(SerializeEntries(Obj(es), SortedNames(es)))
  }

  lemma CanonicalItem(items: seq<Value>, i: nat)
    requires i < |items|
    ensures CanonicalItems(items)[i] == Canonical(items[i])
  {
    PrintedItem(SerializeItems(items), i);
    SerializedItem(items, i);
  }

  lemma PrintedPair(key: Text, j: Json)
    ensures Printed(JArray([JString(key), j])) == JArray([JString(key), Printed(j)])
  {
    var pair := [JString(key), j];
    assert pair[1..] == [j] && [j][1..] == [];
    assert PrintedItems([j]) == [Printed(j)] + PrintedItems([]);
    assert PrintedItems(pair) == [Printed(JString(key))] + PrintedItems([j]);
  }

  lemma CanonicalPair(es: seq<Entry>, i: nat)
    requires i < |es|
    ensures |SortedNames(es)| == |es| && SortedNames(es)[i] in Names(es)
    ensures CanonicalPairs(es)[i] == JArray([JString(SortedNames(es)[i]), Canonical(Get(es, SortedNames(es)[i]))])
  {
    SortedNamesAreNames(es);
    var keys := SortedNames(es);
    assert keys[i] in keys;
    PrintedItem(SerializeEntries(Obj(es), keys), i);
    SerializedEntry(Obj(es), keys, i);
    PrintedPair(keys[i], SerializeForKey(Get(es, keys[i])));
  }

  function TagOf(v: Value): string {
    match v
    case Null => "null"
    case Undefined => "undefined"
    case Str(_) => "string"
    case Num(_) => "number"
    case Bool(_) => "boolean"
    case Arr(_) => "array"
    case Obj(_) => "object"
    case Other(_) => "string"
  }

  lemma TagsDiffer(v: Value, w: Value)
    requires Units(TagOf(v)) == Units(TagOf(w))
    ensures TagOf(v) == TagOf(w)
  {
    var s, t := Units(TagOf(v)), Units(TagOf(w));
    assert |s| == |TagOf(v)| && |t| == |TagOf(w)|;
    assert s[0] == Unit(TagOf(v)[0]) && t[0] == Unit(TagOf(w)[0]);
  }

  lemma CanonicalForm(v: Value)
    ensures v.Null? || v.Undefined? ==> Canonical(v) == Bare(TagOf(v))
    ensures v.Str? ==> Canonical(v) == Tagged("string", JString(v.s))
    ensures v.Other? ==> Canonical(v) == Tagged("string", JString(v.text))
    ensures v.Num? ==> Canonical(v) == Tagged("number", Printed(JNumber(v.n)))
    ensures v.Bool? ==> Canonical(v) == Tagged("boolean", JBool(v.b))
    ensures v.Arr? ==> Canonical(v) == Tagged("array", JArray(CanonicalItems(v.items)))
    ensures v.Obj? ==> Canonical(v) == Tagged("object", JArray(CanonicalPairs(v.entries)))
  {
    match v
    case Null => PrintedTag("null", JNull);
    case Undefined => PrintedTag("undefined", JNull);
    case Str(s) => PrintedTag("string", JString(s));
    case Other(s) => PrintedTag("string", JString(s));
    case Num(n) => PrintedTag("number", JNumber(n));
    case Bool(b) => PrintedTag("boolean", JBool(b));
    case Arr(items) => PrintedTag("array", JArray(SerializeItems(items)));
    case Obj(es) =>
      SortedNamesAreNames(es);
      PrintedTag("object", JArray(SerializeEntries(Obj(es), SortedNames(es))));
  }

  /** The tag and payload of a serialised value. */
  lemma SameTag(v: Value, w: Value)
    requires Canonical(v) == Canonical(w)
    ensures TagOf(v) == TagOf(w)
  {
    CanonicalForm(v);
    CanonicalForm(w);
    assert Canonical(v).members[0] == Member(Units("t"), JString(Units(TagOf(v))));
    assert Canonical(w).members[0] == Member(Units("t"), JString(Units(TagOf(w))));
    TagsDiffer(v, w);
  }

  lemma SamePayload(tag: string, p: Json, q: Json)
    ensures Tagged(tag, p) == Tagged(tag, q) <==> p == q
  {
    assert Tagged(tag, p).members[1].value == p && Tagged(tag, q).members[1].value == q;
  }

  // ----- sorted names

  lemma {:induction false} DistinctCount<T>(s: seq<T>, x: T)
    requires Distinct(s)
    ensures multiset(s)[x] == if x in s then 1 else 0
  {
    if s != [] {
      assert s == [s[0]] + s[1..];
      DistinctCount(s[1..], x);
    }
  }

  lemma SameNamesSortAlike(es: seq<Entry>, fs: seq<Entry>)
    requires Distinct(Names(es)) && Distinct(Names(fs))
    ensures SameNames(es, fs) <==> SortedNames(es) == SortedNames(fs)
  {
    if SameNames(es, fs) {
      forall k
        ensures multiset(Names(es))[k] == multiset(Names(fs))[k]
      {
        DistinctCount(Names(es), k);
        DistinctCount(Names(fs), k);
      }
      LexIsTotalOrder();
      SortOfPermutation(LexLe, Names(es), Names(fs));
    }
    SortedNamesAreNames(es);
    SortedNamesAreNames(fs);
  }

  // ----- the main equivalence

  lemma WellFormedEntry(es: seq<Entry>, k: Text)
    requires WellFormed(Obj(es)) && k in Names(es)
    ensures WellFormed(Get(es, k))
  {
    assert es[IndexOf(Names(es), k)].value == Get(es, k);
  }

  /** Two values serialise alike exactly when they are the same up to key order. */
  lemma {:induction false} SameValueIffCanonical(v: Value, w: Value)
    requires WellFormed(v) && WellFormed(w)
    ensures SameValue(v, w) <==> Canonical(v) == Canonical(w)
    decreases v
  {
    CanonicalForm(v);
    CanonicalForm(w);
    if TagOf(v) != TagOf(w) {
      if Canonical(v) == Canonical(w) {
        SameTag(v, w);
      }
    } else {
      match v
      case Arr(items) =>
        SamePayload("array", JArray(CanonicalItems(items)), JArray(CanonicalItems(w.items)));
        SameArrays(items, w.items);
      case Obj(es) =>
        SamePayload("object", JArray(CanonicalPairs(es)), JArray(CanonicalPairs(w.entries)));
        SameObjects(es, w.entries);
      case Num(n) => SamePayload("number", Printed(JNumber(n)), Printed(JNumber(w.n)));
      case Bool(b) => SamePayload("boolean", JBool(b), JBool(w.b));
      case Null =>
      case Undefined =>
      case Str(s) => SamePayload("string", JString(s), if w.Str? then JString(w.s) else JString(w.text));
      case Other(s) => SamePayload("string", JString(s), if w.Str? then JString(w.s) else JString(w.text));
    }
  }

  lemma {:induction false} SameArrays(items: seq<Value>, others: seq<Value>)
    requires WellFormed(Arr(items)) && WellFormed(Arr(others))
    ensures SameValue(Arr(items), Arr(others)) <==> CanonicalItems(items) == CanonicalItems(others)
    decreases Arr(items), 0
  {
    if |items| == |others| {
      forall i | 0 <= i < |items|
        ensures SameValue(items[i], others[i]) <==> CanonicalItems(items)[i] == CanonicalItems(others)[i]
      {
        SameValueIffCanonical(items[i], others[i]);
        CanonicalItem(items, i);
        CanonicalItem(others, i);
      }
    }
  }

  lemma {:induction false} SameObjects(es: seq<Entry>, fs: seq<Entry>)
    requires WellFormed(Obj(es)) && WellFormed(Obj(fs))
    ensures SameValue(Obj(es), Obj(fs)) <==> CanonicalPairs(es) == CanonicalPairs(fs)
    decreases Obj(es), 0
  {
    forall k | k in Names(es) && k in Names(fs)
      ensures SameValue(Get(es, k), Get(fs, k)) <==> Canonical(Get(es, k)) == Canonical(Get(fs, k))
    {
      WellFormedEntry(es, k);
      WellFormedEntry(fs, k);
      SameValueIffCanonical(Get(es, k), Get(fs, k));
    }
    SameNamesSortAlike(es, fs);
    PairsAgree(es, fs);
  }

  lemma CanonicalPairItems(es: seq<Entry>)
    ensures |SortedNames(es)| == |CanonicalPairs(es)| == |es|
    ensures forall i :: 0 <= i < |es| ==>
              && SortedNames(es)[i] in Names(es)
              && CanonicalPairs(es)[i] == JArray([JString(SortedNames(es)[i]), Canonical(Get(es, SortedNames(es)[i]))])
  {
    SortedNamesAreNames(es);
    forall i | 0 <= i < |es|
      ensures SortedNames(es)[i] in Names(es)
      ensures CanonicalPairs(es)[i] == JArray([JString(SortedNames(es)[i]), Canonical(Get(es, SortedNames(es)[i]))])
    {
      CanonicalPair(es, i);
    }
  }

  lemma EqualPairs(es: seq<Entry>, fs: seq<Entry>)
    requires CanonicalPairs(es) == CanonicalPairs(fs)
    ensures SortedNames(es) == SortedNames(fs)
    ensures forall k | k in Names(es) && k in Names(fs) :: Canonical(Get(es, k)) == Canonical(Get(fs, k))
  {
    var cs, ds := CanonicalPairs(es), CanonicalPairs(fs);
    CanonicalPairItems(es);
    CanonicalPairItems(fs);
    assert forall i :: 0 <= i < |es| ==> cs[i].items[0] == ds[i].items[0] && cs[i].items[1] == ds[i].items[1];
    SortedNamesAreNames(es);
    forall k | k in Names(es) && k in Names(fs)
      ensures Canonical(Get(es, k)) == Canonical(Get(fs, k))
    {
      var i :| 0 <= i < |es| && SortedNames(es)[i] == k;
    }
  }

  lemma PairsAgree(es: seq<Entry>, fs: seq<Entry>)
    ensures CanonicalPairs(es) == CanonicalPairs(fs) <==>
            && SortedNames(es) == SortedNames(fs)
            && forall k | k in Names(es) && k in Names(fs) :: Canonical(Get(es, k)) == Canonical(Get(fs, k))
  {
    CanonicalPairItems(es);
    CanonicalPairItems(fs);
    if CanonicalPairs(es) == CanonicalPairs(fs) {
      EqualPairs(es, fs);
    } else if SortedNames(es) == SortedNames(fs) {
      var i :| 0 <= i < |es| && CanonicalPairs(es)[i] != CanonicalPairs(fs)[i];
      var k := SortedNames(es)[i];
      assert k in Names(es) && k in Names(fs) && Canonical(Get(es, k)) != Canonical(Get(fs, k));
    }
  }
}
