/** The four characters that open an encoded value behind its name never occur inside an encoded value. */
module NameMarks {
  import opened JsText
  import opened JsonText
  import opened CacheKeys

  const LETTER_T: CodeUnit := 0x74

  /** `={"t` stands at position `i`. */
  predicate MarkAt(t: Text, i: nat) {
    i + 4 <= |t| && t[i] == EQUALS && t[i + 1] == OPEN_BRACE && t[i + 2] == QUOTE && t[i + 3] == LETTER_T
  }

  predicate NoMarkBefore(t: Text, n: nat) {
    forall i :: 0 <= i < n ==> !MarkAt(t, i)
  }

  /** What may follow a printed value without completing a mark. */
  predicate Calm(rest: Text) {
    rest == [] || rest[0] != LETTER_T
  }

  lemma NoMarkAcross(a: Text, b: Text, n: nat)
    requires NoMarkBefore(a + b, |a|) && NoMarkBefore(b, n)
    ensures NoMarkBefore(a + b, |a| + n)
  {
    forall i | |a| <= i < |a| + n
      ensures !MarkAt(a + b, i)
    {
      assert !MarkAt(b, i - |a|);
    }
  }

  lemma NoEqualsNoMark(a: Text, b: Text)
    requires EQUALS !in a
    ensures NoMarkBefore(a + b, |a|)
  {
    assert forall i :: 0 <= i < |a| ==> (a + b)[i] == a[i];
  }

  // ----- string literals

  lemma FirstUnitsHaveNoEquals(s: Text)
    requires s != [] && EscapeFirst(s) != [EQUALS]
    ensures EQUALS !in EscapeFirst(s)
  {
    if FirstWidth(s) == 2 {
      assert s[..2] == [s[0], s[1]];
    }
  }

  lemma {:induction false} EscapedHasNoMark(s: Text, tail: Text)
    requires tail != [] && tail[0] == QUOTE && Calm(tail[1..])
    ensures NoMarkBefore(Escape(s) + tail, |Escape(s)|)
  {
    if s != [] {
      var first, more := EscapeFirst(s), Escape(s[FirstWidth(s)..]);
      EscapedHasNoMark(s[FirstWidth(s)..], tail);
      Associative(first, more, tail);
      if first == [EQUALS] {
        MarkNeedsBrace(s[FirstWidth(s)..], tail);
        assert NoMarkBefore([EQUALS] + (more + tail), 1);
      } else {
        FirstUnitsHaveNoEquals(s);
        NoEqualsNoMark(first, more + tail);
      }
      NoMarkAcross(first, more + tail, |more|);
    }
  }

  lemma MarkNeedsBrace(s: Text, tail: Text)
    requires tail != [] && tail[0] == QUOTE && Calm(tail[1..])
    ensures !MarkAt([EQUALS] + (Escape(s) + tail), 0)
  {
  }

  lemma QuotedHasNoMark(s: Text, rest: Text)
    requires Calm(rest)
    ensures NoMarkBefore(Quote(s) + rest, |Quote(s)|)
  {
    var tail := [QUOTE] + rest;
    assert tail[1..] == rest;
    EscapedHasNoMark(s, tail);
    NoMarkAcross(Escape(s), tail, 1);
    NoMarkAcross([QUOTE], Escape(s) + tail, |Escape(s)| + 1);
    assert Quote(s) + rest == [QUOTE] + (Escape(s) + tail);
  }

  // ----- whole values

  lemma PlainHasNoMark(j: Json, rest: Text)
    requires j.JNull? || j.JBool? || j.JNumber?
    ensures NoMarkBefore(Print(j) + rest, |Print(j)|)
  {
    assert EQUALS !in Print(j);
    NoEqualsNoMark(Print(j), rest);
  }

  lemma {:induction false} PrintHasNoMark(j: Json, rest: Text)
    requires Calm(rest)
    ensures NoMarkBefore(Print(j) + rest, |Print(j)|)
    decreases j, 0
  {
    match j
    case JString(s) => QuotedHasNoMark(s, rest);
    case JArray(items) =>
      ItemsHaveNoMark(items, [CLOSE_BRACKET] + rest);
      Bracketed(OPEN_BRACKET, PrintItems(items), CLOSE_BRACKET, rest);
    case JObject(members) =>
      MembersHaveNoMark(members, [CLOSE_BRACE] + rest);
      Bracketed(OPEN_BRACE, PrintMembers(members), CLOSE_BRACE, rest);
    case _ => PlainHasNoMark(j, rest);
  }

  lemma Bracketed(open: CodeUnit, inner: Text, close: CodeUnit, rest: Text)
    requires open != EQUALS && close != EQUALS && NoMarkBefore(inner + ([close] + rest), |inner|)
    ensures NoMarkBefore([open] + inner + [close] + rest, |inner| + 2)
  {
    NoMarkAcross(inner, [close] + rest, 1);
    NoMarkAcross([open], inner + ([close] + rest), |inner| + 1);
    assert [open] + inner + [close] + rest == [open] + (inner + ([close] + rest));
  }

  lemma {:induction false} ItemsHaveNoMark(items: seq<Json>, rest: Text)
    requires Calm(rest)
    ensures NoMarkBefore(PrintItems(items) + rest, |PrintItems(items)|)
    decreases items, 1
  {
    if |items| == 1 {
      PrintHasNoMark(items[0], rest);
    } else if items != [] {
      var more := PrintItems(items[1..]);
      PrintHasNoMark(items[0], [COMMA] + (more + rest));
      ItemsHaveNoMark(items[1..], rest);
      Separated(Print(items[0]), more, rest);
    }
  }

  lemma Separated(first: Text, more: Text, rest: Text)
    requires NoMarkBefore(first + ([COMMA] + (more + rest)), |first|) && NoMarkBefore(more + rest, |more|)
    ensures NoMarkBefore(first + [COMMA] + more + rest, |first| + 1 + |more|)
  {
    NoMarkAcross([COMMA], more + rest, |more|);
    NoMarkAcross(first, [COMMA] + (more + rest), 1 + |more|);
    assert first + [COMMA] + more + rest == first + ([COMMA] + (more + rest));
  }

  lemma {:induction false} MemberHasNoMark(m: Member, rest: Text)
    requires Calm(rest)
    ensures NoMarkBefore(PrintMember(m) + rest, |PrintMember(m)|)
    decreases m, 1
  {
    var value := Print(m.value);
    PrintHasNoMark(m.value, rest);
    QuotedHasNoMark(m.name, [COLON] + (value + rest));
    NoMarkAcross([COLON], value + rest, |value|);
    NoMarkAcross(Quote(m.name), [COLON] + (value + rest), 1 + |value|);
    assert PrintMember(m) + rest == Quote(m.name) + ([COLON] + (value + rest));
  }

  lemma {:induction false} MembersHaveNoMark(members: seq<Member>, rest: Text)
    requires Calm(rest)
    ensures NoMarkBefore(PrintMembers(members) + rest, |PrintMembers(members)|)
    decreases members, 1
  {
    if |members| == 1 {
      MemberHasNoMark(members[0], rest);
    } else if members != [] {
      var more := PrintMembers(members[1..]);
      MemberHasNoMark(members[0], [COMMA] + (more + rest));
      MembersHaveNoMark(members[1..], rest);
      Separated(PrintMember(members[0]), more, rest);
    }
  }

  lemma FirstMember(v: Value)
    ensures var j := SerializeForKey(v); j.JObject? && j.members != [] && j.members[0].name == Units("t")
  {
  }

  lemma ObjectOpens(members: seq<Member>)
    requires members != [] && members[0].name == Units("t")
    ensures var e := Print(JObject(members)); |e| >= 3 && e[0] == OPEN_BRACE && e[1] == QUOTE && e[2] == LETTER_T
  {
    MembersStart(members);
    Inside(OPEN_BRACE, PrintMembers(members), CLOSE_BRACE);
  }

  /** Every encoded value opens with `{"t`. */
  lemma EncodingOpens(v: Value)
    ensures var e := SerializeValue(v); |e| >= 3 && e[0] == OPEN_BRACE && e[1] == QUOTE && e[2] == LETTER_T
  {
    FirstMember(v);
    ObjectOpens(SerializeForKey(v).members);
  }

  lemma Inside(open: CodeUnit, inner: Text, close: CodeUnit)
    requires |inner| >= 2
    ensures var t := [open] + inner + [close]; |t| >= 3 && t[0] == open && t[1] == inner[0] && t[2] == inner[1]
  {
  }

  lemma MembersStart(members: seq<Member>)
    requires members != [] && members[0].name == Units("t")
    ensures |PrintMembers(members)| >= 2 && PrintMembers(members)[0] == QUOTE && PrintMembers(members)[1] == LETTER_T
  {
  }
}
