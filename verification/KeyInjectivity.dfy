/** The cache key encoding is self-delimiting, decodable and injective. */
module KeyInjectivity {
  import opened Wrappers
  import opened JsText
  import opened JsonText
  import opened Sorting
  import opened CacheKeys

  // ----- printing depends only on the printed form

  lemma {:induction false} PrintOfPrinted(j: Json)
    ensures Print(Printed(j)) == Print(j)
    decreases j, 0
  {
    match j
    case JArray(items) => PrintOfPrintedItems(items);
    case JObject(members) => PrintOfPrintedMembers(members);
    case _ =>
  }

  lemma {:induction false} PrintOfPrintedItems(items: seq<Json>)
    ensures PrintItems(PrintedItems(items)) == PrintItems(items)
    decreases items, 1
  {
    if items != [] {
      PrintOfPrinted(items[0]);
      PrintOfPrintedItems(items[1..]);
      assert PrintedItems(items)[0] == Printed(items[0]) && PrintedItems(items)[1..] == PrintedItems(items[1..]);
    }
  }

  lemma {:induction false} PrintOfPrintedMembers(members: seq<Member>)
    ensures PrintMembers(PrintedMembers(members)) == PrintMembers(members)
    decreases members, 1
  {
    if members != [] {
      PrintOfPrinted(members[0].value);
      PrintOfPrintedMembers(members[1..]);
      var m := Member(members[0].name, Printed(members[0].value));
      assert PrintedMembers(members)[0] == m && PrintedMembers(members)[1..] == PrintedMembers(members[1..]);
      assert PrintMember(m) == PrintMember(members[0]);
    }
  }

  // ----- values

  /** A serialised value is an object text, so it is read back whatever follows it. */
  lemma SerializedReadsBack(v: Value, rest: Text)
    ensures Parse(SerializeValue(v) + rest) == Ok(Canonical(v), rest)
  {
    var members := SerializeForKey(v).members;
    MembersReadBack(members, rest);
    ObjectReadsBack(members, rest);
  }

  lemma SameValueSerializesAlike(v: Value, w: Value)
    requires WellFormed(v) && WellFormed(w) && SameValue(v, w)
    ensures SerializeValue(v) == SerializeValue(w)
  {
    SameValueIffCanonical(v, w);
    PrintOfPrinted(SerializeForKey(v));
    PrintOfPrinted(SerializeForKey(w));
  }

  /** The encoding of a value is self-delimiting and injective up to key order. */
  lemma ValueEncodingInjective(v: Value, s: Text, w: Value, t: Text)
    requires WellFormed(v) && WellFormed(w)
    ensures SerializeValue(v) + s == SerializeValue(w) + t <==> SameValue(v, w) && s == t
  {
    SerializedReadsBack(v, s);
    SerializedReadsBack(w, t);
    SameValueIffCanonical(v, w);
    if SameValue(v, w) {
      SameValueSerializesAlike(v, w);
    }
  }

  // ----- a decoder

  function CanonicalNumber(n: Number): Number {
    match n
    case Finite(_) => n
    case NegativeZero => Finite(ZERO)
    case _ => NotANumber
  }

  /** The representative that decoding recovers: sorted keys, no -0, no infinities, no `Other`. */
  function Restored(v: Value): (r: Value)
    decreases v, 1, 0
  {
    match v
    case Other(s) => Str(s)
    case Num(n) => Num(CanonicalNumber(n))
    case Arr(items) => Arr(RestoredItems(items))
    case Obj(es) =>
      SortedNamesAreNames(es);
      Obj(RestoredEntries(v, SortedNames(es)))
    case _ => v
  }

  function RestoredItems(items: seq<Value>): (r: seq<Value>)
    ensures |r| == |items|
    decreases items, 0, 0
  {
    if items == [] then [] else [Restored(items[0])] + RestoredItems(items[1..])
  }

  function RestoredEntries(v: Value, keys: seq<Text>): (r: seq<Entry>)
    requires v.Obj? && forall k :: k in keys ==> k in Names(v.entries)
    ensures |r| == |keys|
    decreases v, 0, |keys|
  {
    if keys == [] then []
    else [Entry(keys[0], Restored(Get(v.entries, keys[0])))] + RestoredEntries(v, keys[1..])
  }

  function Untag(j: Json): Option<Value>
    decreases j, 1
  {
    if !j.JObject? || j.members == [] || !j.members[0].value.JString? then None else
      var tag := j.members[0].value.s;
      if |j.members| == 1 then
        if tag == Units("null") then Some(Null)
        else if tag == Units("undefined") then Some(Undefined)
        else None
      else
        match j.members[1].value
        case JString(s) => if tag == Units("string") then Some(Str(s)) else None
        case JBool(b) => if tag == Units("boolean") then Some(Bool(b)) else None
        case JNumber(n) => if tag == Units("number") then Some(Num(n)) else None
        case JNull => if tag == Units("number") then Some(Num(NotANumber)) else None
        case JArray(items) =>
          if tag == Units("array") then
            var vs := UntagItems(items);
            if vs.Some? then Some(Arr(vs.value)) else None
          else if tag == Units("object") then
            var es := UntagPairs(items);
            if es.Some? then Some(Obj(es.value)) else None
          else None
        case JObject(_) => None
  }

  function UntagItems(items: seq<Json>): Option<seq<Value>>
    decreases items, 0
  {
    if items == [] then Some([]) else
      var first, more := Untag(items[0]), UntagItems(items[1..]);
      if first.Some? && more.Some? then Some([first.value] + more.value) else None
  }

  function UntagPairs(pairs: seq<Json>): Option<seq<Entry>>
    decreases pairs, 0
  {
    if pairs == [] then Some([])
    else if !pairs[0].JArray? || |pairs[0].items| != 2 || !pairs[0].items[0].JString? then None else
      var first, more := Untag(pairs[0].items[1]), UntagPairs(pairs[1..]);
      if first.Some? && more.Some? then Some([Entry(pairs[0].items[0].s, first.value)] + more.value) else None
  }

  function Decode(t: Text): Parsed<Value> {
    var p := Parse(t);
    if p.Ok? && Untag(p.value).Some? then Ok(Untag(p.value).value, p.rest) else Fail
  }

  lemma UntagTagged(tag: string, payload: Json)
    ensures Tagged(tag, payload).members[0].value == JString(Units(tag))
    ensures Tagged(tag, payload).members[1].value == payload && |Tagged(tag, payload).members| == 2
  {
  }

  lemma TagTexts()
    ensures Units("array") != Units("object") && Units("null") != Units("undefined")
  {
    assert |Units("array")| == 5 && |Units("object")| == 6;
    assert |Units("null")| == 4 && |Units("undefined")| == 9;
  }

  lemma {:induction false} UntagRestores(v: Value)
    ensures Untag(Canonical(v)) == Some(Restored(v))
    decreases v, 1, 0
  {
    CanonicalForm(v);
    TagTexts();
    match v
    case Arr(items) =>
      UntagRestoresItems(items);
      UntagArray(items);
    case Obj(es) =>
      SortedNamesAreNames(es);
      UntagRestoresPairs(v, SortedNames(es));
      UntagObject(es);
    case Num(n) => UntagNumber(n);
    case Str(s) => UntagTagged("string", JString(s));
    case Other(s) => UntagTagged("string", JString(s));
    case Bool(b) => UntagTagged("boolean", JBool(b));
    case Null =>
    case Undefined =>
  }

  lemma UntagNumber(n: Number)
    ensures Untag(Tagged("number", Printed(JNumber(n)))) == Some(Num(CanonicalNumber(n)))
  {
    UntagTagged("number", Printed(JNumber(n)));
  }

  lemma UntagArray(items: seq<Value>)
    requires UntagItems(CanonicalItems(items)) == Some(RestoredItems(items))
    ensures Untag(Tagged("array", JArray(CanonicalItems(items)))) == Some(Arr(RestoredItems(items)))
  {
    UntagTagged("array", JArray(CanonicalItems(items)));
  }

  lemma UntagObject(es: seq<Entry>)
    requires UntagPairs(CanonicalPairs(es)) == Some(Restored(Obj(es)).entries)
    ensures Untag(Tagged("object", JArray(CanonicalPairs(es)))) == Some(Restored(Obj(es)))
  {
    TagTexts();
    UntagTagged("object", JArray(CanonicalPairs(es)));
  }

  lemma {:induction false} UntagRestoresItems(items: seq<Value>)
    ensures UntagItems(CanonicalItems(items)) == Some(RestoredItems(items))
    decreases items, 0, 0
  {
    if items != [] {
      UntagRestores(items[0]);
      UntagRestoresItems(items[1..]);
      assert CanonicalItems(items)[1..] == CanonicalItems(items[1..]);
    }
  }

  lemma {:induction false} UntagRestoresPairs(v: Value, keys: seq<Text>)
    requires v.Obj? && forall k :: k in keys ==> k in Names(v.entries)
    ensures UntagPairs(PrintedItems(SerializeEntries(v, keys))) == Some(RestoredEntries(v, keys))
    decreases v, 0, |keys|
  {
    if keys != [] {
      UntagRestores(Get(v.entries, keys[0]));
      UntagRestoresPairs(v, keys[1..]);
      var js := SerializeEntries(v, keys);
      PrintedPair(keys[0], SerializeForKey(Get(v.entries, keys[0])));
      assert js[1..] == SerializeEntries(v, keys[1..]);
      assert PrintedItems(js)[1..] == PrintedItems(js[1..]);
    }
  }

  /** Decoding takes exactly one encoded value off a text and recovers its canonical form. */
  lemma DecodeEncoded(v: Value, rest: Text)
    ensures Decode(SerializeValue(v) + rest) == Ok(Restored(v), rest)
  {
    SerializedReadsBack(v, rest);
    UntagRestores(v);
  }

  lemma {:induction false} RestoredItem(items: seq<Value>, i: nat)
    requires i < |items|
    ensures RestoredItems(items)[i] == Restored(items[i])
  {
    if i > 0 {
      RestoredItem(items[1..], i - 1);
    }
  }

  lemma {:induction false} RestoredEntry(v: Value, keys: seq<Text>, i: nat)
    requires v.Obj? && forall k :: k in keys ==> k in Names(v.entries)
    requires i < |keys|
    ensures RestoredEntries(v, keys)[i] == Entry(keys[i], Restored(Get(v.entries, keys[i])))
  {
    if i > 0 {
      RestoredEntry(v, keys[1..], i - 1);
    }
  }

  lemma {:induction false} DistinctFromCounts<T>(s: seq<T>)
    requires forall x :: x in s ==> multiset(s)[x] <= 1
    ensures Distinct(s)
  {
    if s != [] {
      var rest := s[1..];
      assert s == [s[0]] + rest;
      assert multiset(s) == multiset{s[0]} + multiset(rest);
      assert s[0] in s && multiset(s)[s[0]] == 1 + multiset(rest)[s[0]];
      forall x | x in rest
        ensures multiset(rest)[x] <= 1
      {
        assert x in s && multiset(s)[x] >= multiset(rest)[x];
      }
      DistinctFromCounts(rest);
      assert forall j :: 0 < j < |s| ==> s[j] == rest[j - 1];
    }
  }

  lemma DistinctSorted(es: seq<Entry>)
    requires Distinct(Names(es))
    ensures Distinct(SortedNames(es))
  {
    SortPermutes(LexLe, Names(es));
    forall k | k in SortedNames(es)
      ensures multiset(SortedNames(es))[k] <= 1
    {
      DistinctCount(Names(es), k);
    }
    DistinctFromCounts(SortedNames(es));
  }

  /** The recovered value is the encoded one, with sorted keys. */
  lemma {:induction false} RestoredIsSame(v: Value)
    requires WellFormed(v)
    ensures WellFormed(Restored(v)) && SameValue(Restored(v), v)
    ensures v.Obj? ==> Names(Restored(v).entries) == SortedNames(v.entries)
    decreases v
  {
    match v
    case Arr(items) =>
      forall i | 0 <= i < |items|
        ensures WellFormed(RestoredItems(items)[i]) && SameValue(RestoredItems(items)[i], items[i])
      {
        RestoredItem(items, i);
        RestoredIsSame(items[i]);
      }
    case Obj(es) =>
      RestoredObject(es);
      var rs := Restored(v).entries;
      forall i | 0 <= i < |rs|
        ensures WellFormed(rs[i].value)
      {
        WellFormedEntry(es, SortedNames(es)[i]);
        RestoredIsSame(Get(es, SortedNames(es)[i]));
      }
      forall k | k in Names(rs)
        ensures SameValue(Get(rs, k), Get(es, k))
      {
        WellFormedEntry(es, k);
        RestoredIsSame(Get(es, k));
      }
    case _ =>
  }

  lemma RestoredObject(es: seq<Entry>)
    requires Distinct(Names(es))
    ensures var rs := Restored(Obj(es)).entries;
            && Names(rs) == SortedNames(es) && Distinct(Names(rs)) && SameNames(rs, es)
            && (forall k :: k in Names(es) ==> k in Names(rs) && Get(rs, k) == Restored(Get(es, k)))
            && (forall i :: 0 <= i < |rs| ==>
                  SortedNames(es)[i] in Names(es) && rs[i].value == Restored(Get(es, SortedNames(es)[i])))
  {
    SortedNamesAreNames(es);
    DistinctSorted(es);
    var keys, rs := SortedNames(es), Restored(Obj(es)).entries;
    forall i | 0 <= i < |keys|
      ensures keys[i] in Names(es) && rs[i] == Entry(keys[i], Restored(Get(es, keys[i])))
    {
      assert keys[i] in keys;
      RestoredEntry(Obj(es), keys, i);
    }
    assert Names(rs) == keys;
  }

  // ----- the whole key text

  lemma {:induction false} SplitAtFirst(a: Text, x: Text, b: Text, y: Text, mark: CodeUnit)
    requires a + [mark] + x == b + [mark] + y
    requires mark !in a && mark !in b
    ensures a == b && x == y
  {
    var t := a + [mark] + x;
    assert t[|a|] == mark && t[|b|] == mark;
    assert forall i :: 0 <= i < |a| ==> t[i] == a[i];
    assert forall i :: 0 <= i < |b| ==> t[i] == b[i];
    if |a| == |b| {
      assert t[..|a|] == a && t[..|b|] == b && t[|a| + 1..] == x && t[|b| + 1..] == y;
    }
  }

  /** What follows a part: nothing, or `&` and the remaining parts. */
  function After(es: seq<Entry>, keys: seq<Text>): Text
    requires forall k :: k in keys ==> k in Names(es)
  {
    if keys == [] then [] else [AMPERSAND] + JoinParts(es, keys)
  }

  lemma JoinUnfolds(es: seq<Entry>, keys: seq<Text>)
    requires keys != [] && forall k :: k in keys ==> k in Names(es)
    ensures JoinParts(es, keys) == keys[0] + [EQUALS] + (SerializeValue(Get(es, keys[0])) + After(es, keys[1..]))
  {
  }

  predicate NoEquals(names: seq<Text>) {
    forall k :: k in names ==> EQUALS !in k
  }

  /** Equal joined texts that begin with the same name go on with the same value and the same rest. */
  lemma SameNamePartsAgree(es: seq<Entry>, keys: seq<Text>, fs: seq<Entry>, others: seq<Text>)
    requires keys != [] && forall k :: k in keys ==> k in Names(es)
    requires others != [] && forall k :: k in others ==> k in Names(fs)
    requires keys[0] == others[0] && JoinParts(es, keys) == JoinParts(fs, others)
    ensures Canonical(Get(es, keys[0])) == Canonical(Get(fs, others[0]))
    ensures After(es, keys[1..]) == After(fs, others[1..])
  {
    JoinUnfolds(es, keys);
    JoinUnfolds(fs, others);
    var v, w := Get(es, keys[0]), Get(fs, others[0]);
    var s, t := After(es, keys[1..]), After(fs, others[1..]);
    SameHead(keys[0] + [EQUALS], SerializeValue(v) + s, SerializeValue(w) + t);
    SerializedReadsBack(v, s);
    SerializedReadsBack(w, t);
  }

  lemma SameHead(a: Text, x: Text, y: Text)
    requires a + x == a + y
    ensures x == y
  {
    assert (a + x)[|a|..] == x && (a + y)[|a|..] == y;
  }

  lemma FirstPartsAgree(es: seq<Entry>, keys: seq<Text>, fs: seq<Entry>, others: seq<Text>)
    requires keys != [] && forall k :: k in keys ==> k in Names(es)
    requires others != [] && forall k :: k in others ==> k in Names(fs)
    requires EQUALS !in keys[0] && EQUALS !in others[0]
    requires JoinParts(es, keys) == JoinParts(fs, others)
    ensures keys[0] == others[0] && Canonical(Get(es, keys[0])) == Canonical(Get(fs, others[0]))
    ensures After(es, keys[1..]) == After(fs, others[1..])
  {
    JoinUnfolds(es, keys);
    JoinUnfolds(fs, others);
    var v, w := Get(es, keys[0]), Get(fs, others[0]);
    var s, t := After(es, keys[1..]), After(fs, others[1..]);
    SplitAtFirst(keys[0], SerializeValue(v) + s, others[0], SerializeValue(w) + t, EQUALS);
    SameNamePartsAgree(es, keys, fs, others);
  }

  lemma AfterAgrees(es: seq<Entry>, keys: seq<Text>, fs: seq<Entry>, others: seq<Text>)
    requires forall k :: k in keys ==> k in Names(es)
    requires forall k :: k in others ==> k in Names(fs)
    requires After(es, keys) == After(fs, others)
    ensures JoinParts(es, keys) == JoinParts(fs, others)
  {
    if keys != [] {
      assert After(es, keys)[1..] == JoinParts(es, keys);
    }
    if others != [] {
      assert After(fs, others)[1..] == JoinParts(fs, others);
    }
  }

  /** Equal joined texts have the same names and the same values under them. */
  lemma {:induction false} JoinedPartsAgree(es: seq<Entry>, keys: seq<Text>, fs: seq<Entry>, others: seq<Text>)
    requires forall k :: k in keys ==> k in Names(es)
    requires forall k :: k in others ==> k in Names(fs)
    requires NoEquals(keys) && NoEquals(others)
    requires JoinParts(es, keys) == JoinParts(fs, others)
    ensures keys == others
    ensures forall k :: k in keys ==> Canonical(Get(es, k)) == Canonical(Get(fs, k))
    decreases |keys|
  {
    if keys == [] && others != [] {
      JoinUnfolds(fs, others);
    } else if keys != [] && others == [] {
      JoinUnfolds(es, keys);
    } else if keys != [] {
      FirstPartsAgree(es, keys, fs, others);
      AfterAgrees(es, keys[1..], fs, others[1..]);
      JoinedPartsAgree(es, keys[1..], fs, others[1..]);
      assert keys == [keys[0]] + keys[1..] && others == [others[0]] + others[1..];
      forall k | k in keys
        ensures Canonical(Get(es, k)) == Canonical(Get(fs, k))
      {
        assert k == keys[0] || k in keys[1..];
      }
    }
  }

  lemma {:induction false} JoinedPartsEqual(es: seq<Entry>, fs: seq<Entry>, keys: seq<Text>)
    requires forall k :: k in keys ==> k in Names(es) && k in Names(fs)
    requires forall k :: k in keys ==> SerializeValue(Get(es, k)) == SerializeValue(Get(fs, k))
    ensures JoinParts(es, keys) == JoinParts(fs, keys)
  {
    if keys != [] {
      assert keys[0] in keys;
      JoinedPartsEqual(es, fs, keys[1..]);
    }
  }

  /** Two parameter records are the same: same names, and the same value under each. */
  ghost predicate SameParams(ps: seq<Entry>, qs: seq<Entry>) {
    SameValue(Obj(ps), Obj(qs))
  }

  /** Reordering parameters, or object keys at any depth, does not change the key text. */
  lemma KeyTextIgnoresOrder(tool: Text, ps: seq<Entry>, qs: seq<Entry>)
    requires WellFormed(Obj(ps)) && WellFormed(Obj(qs)) && SameParams(ps, qs)
    ensures KeyText(tool, ps) == KeyText(tool, qs)
  {
    SameNamesSortAlike(ps, qs);
    SortedNamesAreNames(ps);
    forall k | k in Names(ps)
      ensures SerializeValue(Get(ps, k)) == SerializeValue(Get(qs, k))
    {
      WellFormedEntry(ps, k);
      WellFormedEntry(qs, k);
      SameValueSerializesAlike(Get(ps, k), Get(qs, k));
    }
    JoinedPartsEqual(ps, qs, SortedNames(ps));
  }

  /** Over tools without ':' and names without '=', equal key texts mean the same call. */
  lemma KeyTextInjective(tool: Text, ps: seq<Entry>, other: Text, qs: seq<Entry>)
    requires WellFormed(Obj(ps)) && WellFormed(Obj(qs))
    requires COLON !in tool && COLON !in other
    requires NoEquals(Names(ps)) && NoEquals(Names(qs))
    ensures KeyText(tool, ps) == KeyText(other, qs) <==> tool == other && SameParams(ps, qs)
  {
    if tool == other && SameParams(ps, qs) {
      KeyTextIgnoresOrder(tool, ps, qs);
    }
    if KeyText(tool, ps) == KeyText(other, qs) {
      SplitAtFirst(tool, NormalizeParams(ps), other, NormalizeParams(qs), COLON);
      SortedNamesAreNames(ps);
      SortedNamesAreNames(qs);
      JoinedPartsAgree(ps, SortedNames(ps), qs, SortedNames(qs));
      PairsAgree(ps, qs);
      SameObjects(ps, qs);
    }
  }
}
