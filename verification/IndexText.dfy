/** The text that the command line writes for an index, and its size (scripts/app-profiles/lib/kv-store.ts). */
module IndexText {
  import opened JsText
  import opened JsonText
  import opened ProfileValidation

  // ----- JSON.stringify(value, null, 2)

  const SPACE: CodeUnit := 0x20

  function NewLine(indent: nat): Text {
    [0x0A] + seq(indent, _ => SPACE)
  }

  function Pretty(j: Json, indent: nat): Text
    decreases j, 0
  {
    match j
    case JArray(items) =>
      if items == [] then [OPEN_BRACKET, CLOSE_BRACKET]
      else [OPEN_BRACKET] + NewLine(indent + 2) + PrettyItems(items, indent + 2) + NewLine(indent) + [CLOSE_BRACKET]
    case JObject(members) =>
      if members == [] then [OPEN_BRACE, CLOSE_BRACE]
      else [OPEN_BRACE] + NewLine(indent + 2) + PrettyMembers(members, indent + 2) + NewLine(indent) + [CLOSE_BRACE]
    case _ => Print(j)
  }

  function PrettyItems(items: seq<Json>, indent: nat): Text
    decreases items, 1
  {
    if items == [] then []
    else if |items| == 1 then Pretty(items[0], indent)
    else Pretty(items[0], indent) + ([COMMA] + NewLine(indent)) + PrettyItems(items[1..], indent)
  }

  function PrettyMember(m: Member, indent: nat): Text
    decreases m, 1
  {
    Quote(m.name) + [COLON, SPACE] + Pretty(m.value, indent)
  }

  function PrettyMembers(members: seq<Member>, indent: nat): Text
    decreases members, 1
  {
    if members == [] then []
    else if |members| == 1 then PrettyMember(members[0], indent)
    else PrettyMember(members[0], indent) + ([COMMA] + NewLine(indent)) + PrettyMembers(members[1..], indent)
  }

  // ----- an index as written

  function Strings(ts: seq<Text>): (r: seq<Json>)
    ensures |r| == |ts|
  {
    if ts == [] then [] else [JString(ts[0])] + Strings(ts[1..])
  }

  /** The properties in the order in which the index validator lists them. */
  function EntryJson(e: Entry): Json {
    JObject([Member(Units("id"), JString(e.id)), Member(Units("displayName"), JString(e.displayName)),
             Member(Units("environment"), JString(e.environment)), Member(Units("region"), JString(e.region)),
             Member(Units("enabled"), JBool(e.enabled)), Member(Units("aliases"), JArray(Strings(e.aliases))),
             Member(Units("capabilities"), JArray(Strings(e.capabilities)))])
  }

  function EntriesJson(es: seq<Entry>): (r: seq<Json>)
    ensures |r| == |es|
  {
    if es == [] then [] else [EntryJson(es[0])] + EntriesJson(es[1..])
  }

  function IndexJson(es: seq<Entry>): Json {
    JObject([Member(Units("version"), JNumber(Finite([0x31]))), Member(Units("profiles"), JArray(EntriesJson(es)))])
  }

  function WrittenIndex(es: seq<Entry>): Text {
    Pretty(IndexJson(es), 0) + [0x0A]
  }

  // ----- its size

  /** The UTF-8 bytes of a code unit; the halves of a surrogate pair take two each, and JSON text has no lone ones. */
  function UnitBytes(u: CodeUnit): nat {
    if u < 0x80 then 1 else if u < 0x800 || IsHigh(u) || IsLow(u) then 2 else 3
  }

  function Utf8Bytes(t: Text): nat {
    if t == [] then 0 else UnitBytes(t[0]) + Utf8Bytes(t[1..])
  }

  function IndexBytes(es: seq<Entry>): nat {
    Utf8Bytes(WrittenIndex(es))
  }

  lemma {:induction false} BytesAppend(a: Text, b: Text)
    ensures Utf8Bytes(a + b) == Utf8Bytes(a) + Utf8Bytes(b)
  {
    if a == [] {
      assert a + b == b;
    } else {
      assert (a + b)[1..] == a[1..] + b;
      BytesAppend(a[1..], b);
    }
  }

  lemma EscapedFirstBytes(s: Text)
    requires s != []
    ensures Utf8Bytes(EscapeFirst(s)) >= Utf8Bytes(s[..FirstWidth(s)])
  {
    if FirstWidth(s) == 1 {
      assert s[..1] == [s[0]];
      assert Utf8Bytes([s[0]]) == UnitBytes(s[0]);
      var e := EscapeUnit(s[0]);
      if |e| > 1 {
        AtLeastItsLength(e);
      }
    }
  }

  lemma {:induction false} AtLeastItsLength(t: Text)
    ensures Utf8Bytes(t) >= |t|
  {
    if t != [] {
      AtLeastItsLength(t[1..]);
    }
  }

  /** Escaping never shortens. */
  lemma {:induction false} EscapedBytes(s: Text)
    ensures Utf8Bytes(Escape(s)) >= Utf8Bytes(s)
  {
    if s != [] {
      var w := FirstWidth(s);
      assert s == s[..w] + s[w..];
      BytesAppend(s[..w], s[w..]);
      BytesAppend(EscapeFirst(s), Escape(s[w..]));
      EscapedFirstBytes(s);
      EscapedBytes(s[w..]);
    }
  }

  lemma QuotedBytes(s: Text)
    ensures Utf8Bytes(Quote(s)) >= Utf8Bytes(s)
  {
    EscapedBytes(s);
    BytesAppend([QUOTE] + Escape(s), [QUOTE]);
    BytesAppend([QUOTE], Escape(s));
  }

  /** The bytes of the string values in a tree. */
  function StringBytes(j: Json): nat
    decreases j, 0
  {
    match j
    case JString(s) => Utf8Bytes(s)
    case JArray(items) => ItemBytes(items)
    case JObject(members) => MemberBytes(members)
    case _ => 0
  }

  function ItemBytes(items: seq<Json>): nat
    decreases items, 1
  {
    if items == [] then 0 else StringBytes(items[0]) + ItemBytes(items[1..])
  }

  function MemberBytes(members: seq<Member>): nat
    decreases members, 1
  {
    if members == [] then 0 else
      assert members[0].value < members[0] && members[0] in members;
      StringBytes(members[0].value) + MemberBytes(members[1..])
  }

  lemma WrappedBytes(a: Text, b: Text, c: Text, d: Text, e: Text)
    ensures Utf8Bytes(a + b + c + d + e) >= Utf8Bytes(c)
  {
    BytesAppend(a + b + c + d, e);
    BytesAppend(a + b + c, d);
    BytesAppend(a + b, c);
  }

  lemma ThreeBytes(a: Text, b: Text, c: Text)
    ensures Utf8Bytes(a + b + c) >= Utf8Bytes(a) + Utf8Bytes(c)
  {
    BytesAppend(a + b, c);
    BytesAppend(a, b);
  }

  /** A written tree takes at least the bytes of its string values. */
  lemma {:induction false} PrettyBytes(j: Json, indent: nat)
    ensures Utf8Bytes(Pretty(j, indent)) >= StringBytes(j)
    decreases j, 0
  {
    match j
    case JString(s) => QuotedBytes(s);
    case JArray(items) =>
      if items != [] {
        PrettyItemsBytes(items, indent + 2);
        WrappedBytes([OPEN_BRACKET], NewLine(indent + 2), PrettyItems(items, indent + 2), NewLine(indent),
                     [CLOSE_BRACKET]);
      }
    case JObject(members) =>
      if members != [] {
        PrettyMembersBytes(members, indent + 2);
        WrappedBytes([OPEN_BRACE], NewLine(indent + 2), PrettyMembers(members, indent + 2), NewLine(indent),
                     [CLOSE_BRACE]);
      }
    case _ =>
  }

  lemma {:induction false} PrettyItemsBytes(items: seq<Json>, indent: nat)
    ensures Utf8Bytes(PrettyItems(items, indent)) >= ItemBytes(items)
    decreases items, 1
  {
    if items != [] {
      PrettyBytes(items[0], indent);
      PrettyItemsBytes(items[1..], indent);
      ThreeBytes(Pretty(items[0], indent), [COMMA] + NewLine(indent), PrettyItems(items[1..], indent));
    }
  }

  lemma {:induction false} PrettyMembersBytes(members: seq<Member>, indent: nat)
    ensures Utf8Bytes(PrettyMembers(members, indent)) >= MemberBytes(members)
    decreases members, 1
  {
    if members != [] {
      var m := members[0];
      PrettyBytes(m.value, indent);
      ThreeBytes(Quote(m.name), [COLON, SPACE], Pretty(m.value, indent));
      PrettyMembersBytes(members[1..], indent);
      ThreeBytes(PrettyMember(m, indent), [COMMA] + NewLine(indent), PrettyMembers(members[1..], indent));
    }
  }

  /** The bytes of the texts that identify an entry. */
  function HeadBytes(e: Entry): nat {
    Utf8Bytes(e.id) + Utf8Bytes(e.displayName) + Utf8Bytes(e.environment)
  }

  lemma EntryBytes(e: Entry)
    ensures StringBytes(EntryJson(e)) >= HeadBytes(e)
  {
    var ms := EntryJson(e).members;
    MembersFrom(ms, 0);
    MembersFrom(ms, 1);
    MembersFrom(ms, 2);
    assert ms[0..] == ms;
  }

  lemma MembersFrom(ms: seq<Member>, i: nat)
    requires i < |ms|
    ensures MemberBytes(ms[i..]) == StringBytes(ms[i].value) + MemberBytes(ms[i + 1..])
  {
    assert ms[i..][0] == ms[i] && ms[i..][1..] == ms[i + 1..];
  }

  lemma {:induction false} EntriesBytes(es: seq<Entry>, w: nat)
    requires forall i :: 0 <= i < |es| ==> HeadBytes(es[i]) >= w
    ensures ItemBytes(EntriesJson(es)) >= |es| * w
  {
    if es != [] {
      EntryBytes(es[0]);
      EntriesBytes(es[1..], w);
      assert |es| * w == (|es| - 1) * w + w;
    }
  }

  /** An index of entries with at least `w` bytes in their id, display name and environment. */
  lemma IndexBytesAtLeast(es: seq<Entry>, w: nat)
    requires forall i :: 0 <= i < |es| ==> HeadBytes(es[i]) >= w
    ensures IndexBytes(es) >= |es| * w
  {
    var ms := IndexJson(es).members;
    EntriesBytes(es, w);
    MembersFrom(ms, 0);
    MembersFrom(ms, 1);
    assert ms[0..] == ms;
    assert MemberBytes(ms) >= |es| * w;
    PrettyBytes(IndexJson(es), 0);
    BytesAppend(Pretty(IndexJson(es), 0), [0x0A]);
  }
}
