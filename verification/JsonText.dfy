/**
 The text `JSON.stringify` prints for a JSON tree (no indentation), with string quoting as
 in section 7 of RFC 8259, and a parser that takes such a text apart again.
 */
module JsonText {
  import opened JsText

  /** The characters of a printed number. */
  predicate IsNumberUnit(u: CodeUnit) {
    0x30 <= u <= 0x39 || u == 0x2B || u == 0x2D || u == 0x2E || u == 0x65
  }

  ghost predicate AllNumberUnits(t: Text) {
    forall i :: 0 <= i < |t| ==> IsNumberUnit(t[i])
  }

  /** The printed form of a finite number; distinct finite numbers other than -0 print differently. */
  type NumberText = t: Text | t != [] && AllNumberUnits(t) witness [0x30]

  const ZERO: NumberText := [0x30]

  /** A JavaScript number, known by its printed form. */
  datatype Number = Finite(text: NumberText) | NegativeZero | NotANumber | PlusInfinity | MinusInfinity

  datatype Json =
    | JNull
    | JBool(b: bool)
    | JNumber(n: Number)
    | JString(s: Text)
    | JArray(items: seq<Json>)
    | JObject(members: seq<Member>)

  datatype Member = Member(name: Text, value: Json)

  const COMMA: CodeUnit := 0x2C
  const COLON: CodeUnit := 0x3A
  const OPEN_BRACKET: CodeUnit := 0x5B
  const CLOSE_BRACKET: CodeUnit := 0x5D
  const OPEN_BRACE: CodeUnit := 0x7B
  const CLOSE_BRACE: CodeUnit := 0x7D
  const LETTER_U: CodeUnit := 0x75

  // ----- printing

  predicate IsHigh(u: CodeUnit) { 0xD800 <= u < 0xDC00 }

  predicate IsLow(u: CodeUnit) { 0xDC00 <= u < 0xE000 }

  function HexDigit(n: nat): CodeUnit
    requires n < 16
  {
    if n < 10 then 0x30 + n else 0x61 + (n - 10)
  }

  function UnicodeEscape(u: CodeUnit): Text {
    [BACKSLASH, LETTER_U, HexDigit(u / 4096), HexDigit(u / 256 % 16), HexDigit(u / 16 % 16), HexDigit(u % 16)]
  }

  /** The letter of a two-character escape, or 0 when the unit has none. */
  function ShortEscape(u: CodeUnit): CodeUnit {
    if u == QUOTE then QUOTE
    else if u == BACKSLASH then BACKSLASH
    else if u == 8 then 0x62
    else if u == 9 then 0x74
    else if u == 10 then 0x6E
    else if u == 12 then 0x66
    else if u == 13 then 0x72
    else 0
  }

  function EscapeUnit(u: CodeUnit): Text {
    if ShortEscape(u) != 0 then [BACKSLASH, ShortEscape(u)]
    else if u < 0x20 || IsHigh(u) || IsLow(u) then UnicodeEscape(u)
    else [u]
  }

  /** How many code units the first character of a nonempty text takes. */
  function FirstWidth(s: Text): (n: nat)
    requires s != []
    ensures 1 <= n <= |s|
  {
    if |s| >= 2 && IsHigh(s[0]) && IsLow(s[1]) then 2 else 1
  }

  /** A surrogate pair is printed as it is, a lone surrogate is escaped. */
  function EscapeFirst(s: Text): Text
    requires s != []
  {
    if FirstWidth(s) == 2 then s[..2] else EscapeUnit(s[0])
  }

  /** The inside of a string literal. */
  function Escape(s: Text): Text {
    if s == [] then [] else EscapeFirst(s) + Escape(s[FirstWidth(s)..])
  }

  function Quote(s: Text): Text {
    [QUOTE] + Escape(s) + [QUOTE]
  }

  function PrintNumber(n: Number): Text {
    match n
    case Finite(text) => text
    case NegativeZero => ZERO
    case NotANumber | PlusInfinity | MinusInfinity => Units("null")
  }

  function Print(j: Json): Text
    decreases j, 0
  {
    match j
    case JNull => Units("null")
    case JBool(b) => if b then Units("true") else Units("false")
    case JNumber(n) => PrintNumber(n)
    case JString(s) => Quote(s)
    case JArray(items) => [OPEN_BRACKET] + PrintItems(items) + [CLOSE_BRACKET]
    case JObject(members) => [OPEN_BRACE] + PrintMembers(members) + [CLOSE_BRACE]
  }

  function PrintItems(items: seq<Json>): Text
    decreases items, 1
  {
    if items == [] then []
    else if |items| == 1 then Print(items[0])
    else Print(items[0]) + [COMMA] + PrintItems(items[1..])
  }

  function PrintMembers(members: seq<Member>): Text
    decreases members, 1
  {
    if members == [] then []
    else if |members| == 1 then PrintMember(members[0])
    else PrintMember(members[0]) + [COMMA] + PrintMembers(members[1..])
  }

  function PrintMember(m: Member): Text
    decreases m, 1
  {
    Quote(m.name) + [COLON] + Print(m.value)
  }

  // ----- parsing

  datatype Parsed<+T> = Fail | Ok(value: T, rest: Text)

  function HexValue(u: CodeUnit): int {
    if 0x30 <= u <= 0x39 then u - 0x30
    else if 0x61 <= u <= 0x66 then u - 0x61 + 10
    else -1
  }

  function Unescape(u: CodeUnit): int {
    if u == QUOTE || u == BACKSLASH then u
    else if u == 0x62 then 8
    else if u == 0x74 then 9
    else if u == 0x6E then 10
    else if u == 0x66 then 12
    else if u == 0x72 then 13
    else -1
  }

  datatype Step = Bad | Closing | Read(unit: CodeUnit, width: nat)

  /** Reads one code unit of a string literal. */
  function StringStep(t: Text): (s: Step)
    ensures s.Read? ==> 1 <= s.width <= |t|
  {
    if t == [] then Bad
    else if t[0] == QUOTE then Closing
    else if t[0] != BACKSLASH then Read(t[0], 1)
    else if |t| >= 6 && t[1] == LETTER_U then
      var a, b, c, d := HexValue(t[2]), HexValue(t[3]), HexValue(t[4]), HexValue(t[5]);
      if a < 0 || b < 0 || c < 0 || d < 0 then Bad else Read(a * 4096 + b * 256 + c * 16 + d, 6)
    else if |t| >= 2 && Unescape(t[1]) >= 0 then Read(Unescape(t[1]), 2)
    else Bad
  }

  /** Reads a string literal from behind its opening quote. */
  function ParseString(t: Text): (p: Parsed<Text>)
    ensures p.Ok? ==> |p.rest| < |t|
  {
    match StringStep(t)
    case Bad => Fail
    case Closing => Ok([], t[1..])
    case Read(u, width) => Prepend(u, ParseString(t[width..]))
  }

  function Prepend(u: CodeUnit, p: Parsed<Text>): Parsed<Text> {
    if p.Ok? then Ok([u] + p.value, p.rest) else Fail
  }

  function NumberSpan(t: Text): (n: nat)
    ensures n <= |t| && AllNumberUnits(t[..n])
  {
    if t == [] || !IsNumberUnit(t[0]) then 0 else
      var n := NumberSpan(t[1..]);
      assert t[..n + 1] == [t[0]] + t[1..][..n];
      1 + n
  }

  function Parse(t: Text): (p: Parsed<Json>)
    ensures p.Ok? ==> |p.rest| < |t|
    decreases |t|, 0
  {
    if t == [] then Fail
    else if t[0] == QUOTE then
      var p := ParseString(t[1..]);
      if p.Ok? then Ok(JString(p.value), p.rest) else Fail
    else if t[0] == OPEN_BRACKET then
      if |t| >= 2 && t[1] == CLOSE_BRACKET then Ok(JArray([]), t[2..]) else
      var p := ParseItems(t[1..]);
      if p.Ok? then Ok(JArray(p.value), p.rest) else Fail
    else if t[0] == OPEN_BRACE then
      if |t| >= 2 && t[1] == CLOSE_BRACE then Ok(JObject([]), t[2..]) else
      var p := ParseMembers(t[1..]);
      if p.Ok? then Ok(JObject(p.value), p.rest) else Fail
    else if IsNumberUnit(t[0]) then
      var n := NumberSpan(t);
      Ok(JNumber(Finite(t[..n])), t[n..])
    else if Units("null") <= t then Ok(JNull, t[4..])
    else if Units("true") <= t then Ok(JBool(true), t[4..])
    else if Units("false") <= t then Ok(JBool(false), t[5..])
    else Fail
  }

  function ParseItems(t: Text): (p: Parsed<seq<Json>>)
    ensures p.Ok? ==> |p.rest| < |t|
    decreases |t|, 1
  {
    var first := Parse(t);
    if first.Fail? || first.rest == [] then Fail
    else if first.rest[0] == CLOSE_BRACKET then Ok([first.value], first.rest[1..])
    else if first.rest[0] == COMMA then
      var more := ParseItems(first.rest[1..]);
      if more.Ok? then Ok([first.value] + more.value, more.rest) else Fail
    else Fail
  }

  function ParseMember(t: Text): (p: Parsed<Member>)
    ensures p.Ok? ==> |p.rest| < |t|
    decreases |t|, 1
  {
    if t == [] || t[0] != QUOTE then Fail else
      var name := ParseString(t[1..]);
      if name.Fail? || name.rest == [] || name.rest[0] != COLON then Fail else
        var value := Parse(name.rest[1..]);
        if value.Ok? then Ok(Member(name.value, value.value), value.rest) else Fail
  }

  function ParseMembers(t: Text): (p: Parsed<seq<Member>>)
    ensures p.Ok? ==> |p.rest| < |t|
    decreases |t|, 2
  {
    var first := ParseMember(t);
    if first.Fail? || first.rest == [] then Fail
    else if first.rest[0] == CLOSE_BRACE then Ok([first.value], first.rest[1..])
    else if first.rest[0] == COMMA then
      var more := ParseMembers(first.rest[1..]);
      if more.Ok? then Ok([first.value] + more.value, more.rest) else Fail
    else Fail
  }

  // ----- what printing loses: -0 prints as 0, and the numbers that are not finite print as null

  function Printed(j: Json): Json
    decreases j, 0
  {
    match j
    case JNumber(NegativeZero) => JNumber(Finite(ZERO))
    case JNumber(NotANumber) => JNull
    case JNumber(PlusInfinity) => JNull
    case JNumber(MinusInfinity) => JNull
    case JArray(items) => JArray(PrintedItems(items))
    case JObject(members) => JObject(PrintedMembers(members))
    case _ => j
  }

  function PrintedItems(items: seq<Json>): (r: seq<Json>)
    ensures |r| == |items|
    decreases items, 1
  {
    if items == [] then [] else [Printed(items[0])] + PrintedItems(items[1..])
  }

  function PrintedMembers(members: seq<Member>): (r: seq<Member>)
    ensures |r| == |members|
    decreases members, 1
  {
    if members == [] then []
    else [Member(members[0].name, Printed(members[0].value))] + PrintedMembers(members[1..])
  }

  // ----- round trip

  lemma HexDigitReadsBack(n: nat)
    requires n < 16
    ensures HexValue(HexDigit(n)) == n
  {
  }

  lemma FourDigits(u: CodeUnit)
    ensures u / 4096 < 16
    ensures u / 4096 * 4096 + u / 256 % 16 * 256 + u / 16 % 16 * 16 + u % 16 == u
  {
    var b := u / 16;
    var c := b / 16;
    assert u / 256 == c && u / 4096 == c / 16;
  }

  lemma UnicodeEscapeStep(u: CodeUnit, rest: Text)
    ensures StringStep(UnicodeEscape(u) + rest) == Read(u, 6)
  {
    FourDigits(u);
    var t := UnicodeEscape(u) + rest;
    assert t[..6] == UnicodeEscape(u);
    HexDigitReadsBack(u / 4096);
    HexDigitReadsBack(u / 256 % 16);
    HexDigitReadsBack(u / 16 % 16);
    HexDigitReadsBack(u % 16);
  }

  lemma EscapedUnitStep(u: CodeUnit, rest: Text)
    ensures StringStep(EscapeUnit(u) + rest) == Read(u, |EscapeUnit(u)|)
  {
    if ShortEscape(u) == 0 && (u < 0x20 || IsHigh(u) || IsLow(u)) {
      UnicodeEscapeStep(u, rest);
    }
  }

  lemma EscapedUnitReadsBack(u: CodeUnit, more: Text)
    ensures ParseString(EscapeUnit(u) + more) == Prepend(u, ParseString(more))
  {
    EscapedUnitStep(u, more);
    assert (EscapeUnit(u) + more)[|EscapeUnit(u)|..] == more;
  }

  lemma PlainUnitReadsBack(u: CodeUnit, more: Text)
    requires u != QUOTE && u != BACKSLASH
    ensures ParseString([u] + more) == Prepend(u, ParseString(more))
  {
    assert ([u] + more)[1..] == more;
  }

  function PrependAll(s: Text, p: Parsed<Text>): Parsed<Text> {
    if p.Ok? then Ok(s + p.value, p.rest) else Fail
  }

  lemma FirstReadsBack(s: Text, more: Text)
    requires s != []
    ensures ParseString(EscapeFirst(s) + more) == PrependAll(s[..FirstWidth(s)], ParseString(more))
  {
    if FirstWidth(s) == 2 {
      assert s[..2] == [s[0]] + [s[1]];
      Associative([s[0]], [s[1]], more);
      PlainUnitReadsBack(s[0], [s[1]] + more);
      PlainUnitReadsBack(s[1], more);
      var p := ParseString(more);
      if p.Ok? {
        Associative([s[0]], [s[1]], p.value);
      }
    } else {
      assert s[..1] == [s[0]];
      EscapedUnitReadsBack(s[0], more);
    }
  }

  lemma Regroup(a: Text, b: Text, c: Text, d: Text, e: Text)
    ensures a + b + c + d + e == a + (b + (c + d + e))
  {
  }

  /** `tail` starts with the closing quote. */
  lemma {:induction false} EscapedReadsBack(s: Text, tail: Text)
    requires tail != [] && tail[0] == QUOTE
    ensures ParseString(Escape(s) + tail) == Ok(s, tail[1..])
  {
    if s == [] {
      assert Escape(s) + tail == tail;
    } else {
      var w := FirstWidth(s);
      EscapedReadsBack(s[w..], tail);
      FirstReadsBack(s, Escape(s[w..]) + tail);
      Associative(EscapeFirst(s), Escape(s[w..]), tail);
      assert s == s[..w] + s[w..];
    }
  }

  lemma StringReadsBack(s: Text, rest: Text)
    ensures ParseString(Escape(s) + [QUOTE] + rest) == Ok(s, rest)
  {
    var tail := [QUOTE] + rest;
    assert Escape(s) + [QUOTE] + rest == Escape(s) + tail && tail[1..] == rest;
    EscapedReadsBack(s, tail);
  }

  /** The characters that may follow a printed value without being read as part of it. */
  predicate Delimited(rest: Text) {
    rest == [] || !IsNumberUnit(rest[0])
  }

  lemma {:induction false} NumberSpanIs(digits: Text, rest: Text)
    requires AllNumberUnits(digits) && Delimited(rest)
    ensures NumberSpan(digits + rest) == |digits|
  {
    if digits == [] {
      assert digits + rest == rest;
    } else {
      assert (digits + rest)[1..] == digits[1..] + rest;
      NumberSpanIs(digits[1..], rest);
    }
  }

  lemma WordsReadBack(rest: Text)
    ensures Parse(Units("null") + rest) == Ok(JNull, rest)
    ensures Parse(Units("true") + rest) == Ok(JBool(true), rest)
    ensures Parse(Units("false") + rest) == Ok(JBool(false), rest)
  {
  }

  /** Every printed value starts with something that no closing bracket or separator starts with. */
  lemma PrintStarts(j: Json)
    ensures Print(j) != []
    ensures Print(j)[0] != CLOSE_BRACKET && Print(j)[0] != CLOSE_BRACE
  {
  }

  lemma {:induction false} NumberReadsBack(n: Number, rest: Text)
    requires Delimited(rest)
    ensures Parse(PrintNumber(n) + rest) == Ok(Printed(JNumber(n)), rest)
  {
    if n.Finite? || n.NegativeZero? {
      var digits: NumberText := PrintNumber(n);
      var t := digits + rest;
      NumberSpanIs(digits, rest);
      assert IsNumberUnit(digits[0]) && t[0] == digits[0];
      assert t[..|digits|] == digits && t[|digits|..] == rest;
    } else {
      WordsReadBack(rest);
    }
  }

  lemma StringValueReadsBack(s: Text, rest: Text)
    ensures Parse(Print(JString(s)) + rest) == Ok(JString(s), rest)
  {
    var t := Print(JString(s)) + rest;
    assert t[0] == QUOTE && t[1..] == Escape(s) + [QUOTE] + rest;
    StringReadsBack(s, rest);
  }

  lemma EmptyReadsBack(rest: Text)
    ensures Parse(Print(JArray([])) + rest) == Ok(JArray([]), rest)
    ensures Parse(Print(JObject([])) + rest) == Ok(JObject([]), rest)
  {
    EmptyBrackets(OPEN_BRACKET, PrintItems([]), CLOSE_BRACKET, rest);
    EmptyBrackets(OPEN_BRACE, PrintMembers([]), CLOSE_BRACE, rest);
  }

  lemma {:induction false} PrintReadsBack(j: Json, rest: Text)
    requires Delimited(rest)
    ensures Parse(Print(j) + rest) == Ok(Printed(j), rest)
    decreases j, 0
  {
    match j
    case JNull => WordsReadBack(rest);
    case JBool(b) => WordsReadBack(rest);
    case JNumber(n) => NumberReadsBack(n, rest);
    case JString(s) => StringValueReadsBack(s, rest);
    case JArray(items) =>
      if items == [] {
        EmptyReadsBack(rest);
      } else {
        ItemsReadBack(items, rest);
        ArrayReadsBack(items, rest);
      }
    case JObject(members) =>
      if members == [] {
        EmptyReadsBack(rest);
      } else {
        MembersReadBack(members, rest);
        ObjectReadsBack(members, rest);
      }
  }

  lemma ArrayReadsBack(items: seq<Json>, rest: Text)
    requires items != []
    requires ParseItems(PrintItems(items) + [CLOSE_BRACKET] + rest) == Ok(PrintedItems(items), rest)
    ensures Parse(Print(JArray(items)) + rest) == Ok(JArray(PrintedItems(items)), rest)
  {
    PrintStarts(items[0]);
    assert PrintItems(items)[0] == Print(items[0])[0];
    BracketedText(OPEN_BRACKET, PrintItems(items), CLOSE_BRACKET, rest);
  }

  lemma ObjectReadsBack(members: seq<Member>, rest: Text)
    requires members != []
    requires ParseMembers(PrintMembers(members) + [CLOSE_BRACE] + rest) == Ok(PrintedMembers(members), rest)
    ensures Parse(Print(JObject(members)) + rest) == Ok(JObject(PrintedMembers(members)), rest)
  {
    assert PrintMembers(members)[0] == PrintMember(members[0])[0] == QUOTE;
    BracketedText(OPEN_BRACE, PrintMembers(members), CLOSE_BRACE, rest);
  }

  lemma EmptyBrackets(open: CodeUnit, inner: Text, close: CodeUnit, rest: Text)
    requires inner == []
    ensures var t := [open] + inner + [close] + rest;
            |t| >= 2 && t[0] == open && t[1] == close && t[2..] == rest
  {
  }

  lemma BracketedText(open: CodeUnit, inner: Text, close: CodeUnit, rest: Text)
    requires inner != []
    ensures var t := [open] + inner + [close] + rest;
            |t| > 2 && t[0] == open && t[1] == inner[0] && t[1..] == inner + [close] + rest
  {
  }

  lemma {:induction false} ItemsReadBack(items: seq<Json>, rest: Text)
    requires items != []
    ensures ParseItems(PrintItems(items) + [CLOSE_BRACKET] + rest) == Ok(PrintedItems(items), rest)
    decreases items, 1
  {
    var t := PrintItems(items) + [CLOSE_BRACKET] + rest;
    if |items| == 1 {
      Associative(Print(items[0]), [CLOSE_BRACKET], rest);
      PrintReadsBack(items[0], [CLOSE_BRACKET] + rest);
      assert PrintedItems(items) == [Printed(items[0])];
    } else {
      var tail := PrintItems(items[1..]) + [CLOSE_BRACKET] + rest;
      Regroup(Print(items[0]), [COMMA], PrintItems(items[1..]), [CLOSE_BRACKET], rest);
      PrintReadsBack(items[0], [COMMA] + tail);
      ItemsReadBack(items[1..], rest);
      ItemsStep(t, Printed(items[0]), tail);
    }
  }

  lemma ItemsStep(t: Text, j: Json, tail: Text)
    requires Parse(t) == Ok(j, [COMMA] + tail)
    requires ParseItems(tail).Ok?
    ensures ParseItems(t) == Ok([j] + ParseItems(tail).value, ParseItems(tail).rest)
  {
    assert ([COMMA] + tail)[1..] == tail;
  }

  lemma {:induction false} MemberReadsBack(m: Member, rest: Text)
    requires Delimited(rest)
    ensures ParseMember(PrintMember(m) + rest) == Ok(Member(m.name, Printed(m.value)), rest)
    decreases m, 1
  {
    var value := Print(m.value) + rest;
    PrintReadsBack(m.value, rest);
    StringReadsBack(m.name, [COLON] + value);
    MemberUnfold(Escape(m.name), Print(m.value), rest);
    MemberStep(PrintMember(m) + rest, m.name, value);
  }

  lemma MemberUnfold(name: Text, value: Text, rest: Text)
    ensures ([QUOTE] + name + [QUOTE] + [COLON] + value + rest)[1..] == name + [QUOTE] + ([COLON] + (value + rest))
  {
  }

  lemma MemberStep(t: Text, name: Text, value: Text)
    requires t != [] && t[0] == QUOTE && ParseString(t[1..]) == Ok(name, [COLON] + value)
    requires Parse(value).Ok?
    ensures ParseMember(t) == Ok(Member(name, Parse(value).value), Parse(value).rest)
  {
    assert ([COLON] + value)[1..] == value;
  }

  lemma MembersUnfold(members: seq<Member>, rest: Text)
    requires |members| > 1
    ensures PrintMembers(members) + [CLOSE_BRACE] + rest ==
            PrintMember(members[0]) + ([COMMA] + (PrintMembers(members[1..]) + [CLOSE_BRACE] + rest))
  {
    Regroup(PrintMember(members[0]), [COMMA], PrintMembers(members[1..]), [CLOSE_BRACE], rest);
  }

  lemma {:induction false} MembersReadBack(members: seq<Member>, rest: Text)
    requires members != []
    ensures ParseMembers(PrintMembers(members) + [CLOSE_BRACE] + rest) == Ok(PrintedMembers(members), rest)
    decreases members, 1
  {
    var t := PrintMembers(members) + [CLOSE_BRACE] + rest;
    var m := members[0];
    if |members| == 1 {
      Associative(PrintMember(m), [CLOSE_BRACE], rest);
      MemberReadsBack(m, [CLOSE_BRACE] + rest);
      assert PrintedMembers(members) == [Member(m.name, Printed(m.value))];
    } else {
      var tail := PrintMembers(members[1..]) + [CLOSE_BRACE] + rest;
      MembersUnfold(members, rest);
      MemberReadsBack(m, [COMMA] + tail);
      MembersReadBack(members[1..], rest);
      MembersStep(t, Member(m.name, Printed(m.value)), tail);
    }
  }

  lemma MembersStep(t: Text, m: Member, tail: Text)
    requires ParseMember(t) == Ok(m, [COMMA] + tail)
    requires ParseMembers(tail).Ok?
    ensures ParseMembers(t) == Ok([m] + ParseMembers(tail).value, ParseMembers(tail).rest)
  {
    assert ([COMMA] + tail)[1..] == tail;
  }
}
