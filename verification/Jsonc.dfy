/**
 The JSONC comment stripper (scripts/app-profiles/lib/wrangler-config.ts): a lexical reference
 definition of JSONC, the source's index loop, and what stripping keeps and removes.
 */
module Jsonc {
  import opened JsText

  const SLASH: CodeUnit := 0x2F
  const STAR: CodeUnit := 0x2A
  const NEWLINE: CodeUnit := 0x0A

  // ----- the lexical structure

  datatype Token =
    | Code(u: CodeUnit)
    | StringLiteral(text: Text)
    | LineComment(text: Text)
    | BlockComment(text: Text)

  /** The length of the rest of a string literal, closing quote included; an open literal runs to the end. */
  function StringRest(t: Text, escaped: bool): (n: nat)
    ensures n <= |t|
    decreases |t|
  {
    if t == [] then 0
    else if escaped then 1 + StringRest(t[1..], false)
    else if t[0] == BACKSLASH then 1 + StringRest(t[1..], true)
    else if t[0] == QUOTE then 1
    else 1 + StringRest(t[1..], false)
  }

  /** The length of a line comment, up to but without its newline. */
  function LineRest(t: Text): (n: nat)
    ensures n <= |t|
  {
    if t == [] || t[0] == NEWLINE then 0 else 1 + LineRest(t[1..])
  }

  /** The length of a block comment from behind its opener, closer included; an open one runs to the end. */
  function BlockRest(t: Text): (n: nat)
    ensures n <= |t|
  {
    if t == [] then 0
    else if |t| >= 2 && t[0] == STAR && t[1] == SLASH then 2
    else 1 + BlockRest(t[1..])
  }

  predicate LineOpener(t: Text) {
    |t| >= 2 && t[0] == SLASH && t[1] == SLASH
  }

  predicate BlockOpener(t: Text) {
    |t| >= 2 && t[0] == SLASH && t[1] == STAR
  }

  /** The length of the first token. */
  function FirstLength(t: Text): (n: nat)
    requires t != []
    ensures 1 <= n <= |t|
  {
    if t[0] == QUOTE then 1 + StringRest(t[1..], false)
    else if LineOpener(t) then 2 + LineRest(t[2..])
    else if BlockOpener(t) then 2 + BlockRest(t[2..])
    else 1
  }

  function FirstToken(t: Text): Token
    requires t != []
  {
    var lexeme := t[..FirstLength(t)];
    if t[0] == QUOTE then StringLiteral(lexeme)
    else if LineOpener(t) then LineComment(lexeme)
    else if BlockOpener(t) then BlockComment(lexeme)
    else Code(t[0])
  }

  function Lex(t: Text): seq<Token> {
    if t == [] then [] else [FirstToken(t)] + Lex(t[FirstLength(t)..])
  }

  function TextOf(k: Token): Text {
    match k
    case Code(u) => [u]
    case StringLiteral(s) => s
    case LineComment(s) => s
    case BlockComment(s) => s
  }

  function Unlex(ks: seq<Token>): Text {
    if ks == [] then [] else TextOf(ks[0]) + Unlex(ks[1..])
  }

  predicate IsComment(k: Token) {
    k.LineComment? || k.BlockComment?
  }

  function WithoutComments(ks: seq<Token>): seq<Token> {
    if ks == [] then []
    else (if IsComment(ks[0]) then [] else [ks[0]]) + WithoutComments(ks[1..])
  }

  /** What stripping must return: the text without its comment tokens. */
  function Strip(t: Text): Text {
    if t == [] then []
    else (if IsComment(FirstToken(t)) then [] else t[..FirstLength(t)]) + Strip(t[FirstLength(t)..])
  }

  // ----- the loop of the source

  /** The rest of a line comment is skipped; the newline stays. */
  method SkipLine(content: Text, start: nat) returns (i: nat)
    requires start <= |content|
    ensures i == start + LineRest(content[start..])
  {
    i := start;
    while i < |content| && content[i] != NEWLINE
      invariant start <= i <= |content|
      invariant i + LineRest(content[i..]) == start + LineRest(content[start..])
    {
      assert content[i..][1..] == content[i + 1..];
      i := i + 1;
    }
  }

  /** The rest of a block comment is skipped; `i` may end up to two past the end. */
  method SkipBlock(content: Text, start: nat) returns (i: nat)
    requires start <= |content|
    ensures if i <= |content| then i == start + BlockRest(content[start..])
            else start + BlockRest(content[start..]) == |content|
  {
    i := start;
    while i < |content| && !(content[i] == STAR && i + 1 < |content| && content[i + 1] == SLASH)
      invariant start <= i <= |content|
      invariant i + BlockRest(content[i..]) == start + BlockRest(content[start..])
    {
      assert content[i..][1..] == content[i + 1..];
      i := i + 1;
    }
    i := i + 2;
  }

  method StripJsoncComments(content: Text) returns (result: Text)
    ensures result == Strip(content)
  {
    result := [];
    var i := 0;
    var inString, escaped := false, false;
    StartPending(content);
    while i < |content|
      invariant !inString ==> !escaped
      invariant Emitted(content, result, i, inString, escaped)
      decreases |content| - i
    {
      var c := content[i];
      if inString {
        EmitInString(content, result, i, escaped);
        result := result + [c];
        if escaped {
          escaped := false;
        } else if c == BACKSLASH {
          escaped := true;
        } else if c == QUOTE {
          inString := false;
        }
        i := i + 1;
        continue;
      }
      if c == QUOTE {
        EmitQuote(content, result, i);
        inString := true;
        result := result + [c];
        i := i + 1;
        continue;
      }
      if c == SLASH && i + 1 < |content| && content[i + 1] == SLASH {
        var next := SkipLine(content, i);
        PassLineComment(content, result, i, next);
        i := next;
        continue;
      }
      if c == SLASH && i + 1 < |content| && content[i + 1] == STAR {
        var next := SkipBlock(content, i + 2);
        PassBlockComment(content, result, i, next);
        i := next;
        continue;
      }
      EmitCode(content, result, i);
      result := result + [c];
      i := i + 1;
    }
    EndPending(content, result, i, inString, escaped);
  }

  function Drop(t: Text, i: nat): Text {
    if i <= |t| then t[i..] else []
  }

  /** What is still to be output. */
  function Pending(rest: Text, inString: bool, escaped: bool): Text {
    if inString then rest[..StringRest(rest, escaped)] + Strip(rest[StringRest(rest, escaped)..])
    else Strip(rest)
  }

  /** The loop invariant: the output so far and what is pending make up the whole. */
  ghost predicate Emitted(content: Text, result: Text, i: nat, inString: bool, escaped: bool) {
    result + Pending(Drop(content, i), inString, escaped) == Strip(content)
  }

  lemma StartPending(content: Text)
    ensures Emitted(content, [], 0, false, false)
  {
    assert Drop(content, 0) == content;
    assert [] + Strip(content) == Strip(content);
  }

  lemma EndPending(content: Text, result: Text, i: nat, inString: bool, escaped: bool)
    requires i >= |content| && Emitted(content, result, i, inString, escaped)
    ensures result == Strip(content)
  {
    assert Drop(content, i) == [];
    assert Pending([], inString, escaped) == [];
  }

  lemma Shift(t: Text, n: nat)
    requires n < |t|
    ensures t[..n + 1] == [t[0]] + t[1..][..n] && t[n + 1..] == t[1..][n..]
  {
  }

  /** Emitting `c` and moving on keeps the invariant when `c` was the next pending unit. */
  lemma Emit(content: Text, result: Text, i: nat, was: bool, wasEscaped: bool, inString: bool, escaped: bool)
    requires i < |content| && Emitted(content, result, i, was, wasEscaped)
    requires Pending(content[i..], was, wasEscaped) == [content[i]] + Pending(content[i + 1..], inString, escaped)
    ensures Emitted(content, result + [content[i]], i + 1, inString, escaped)
  {
    Associative(result, [content[i]], Pending(content[i + 1..], inString, escaped));
  }

  lemma PendingInString(rest: Text, escaped: bool)
    requires rest != []
    ensures Pending(rest, true, escaped) ==
            [rest[0]] + Pending(rest[1..], escaped || rest[0] != QUOTE, !escaped && rest[0] == BACKSLASH)
  {
  }

  lemma EmitInString(content: Text, result: Text, i: nat, escaped: bool)
    requires i < |content| && Emitted(content, result, i, true, escaped)
    ensures var c := content[i];
            Emitted(content, result + [c], i + 1, escaped || c != QUOTE, !escaped && c == BACKSLASH)
  {
    var c := content[i];
    assert content[i..][1..] == content[i + 1..];
    PendingInString(content[i..], escaped);
    Emit(content, result, i, true, escaped, escaped || c != QUOTE, !escaped && c == BACKSLASH);
  }

  lemma EmitQuote(content: Text, result: Text, i: nat)
    requires i < |content| && content[i] == QUOTE && Emitted(content, result, i, false, false)
    ensures Emitted(content, result + [QUOTE], i + 1, true, false)
  {
    var rest := content[i..];
    var n := StringRest(rest[1..], false);
    assert rest[1..] == content[i + 1..];
    Shift(rest, n);
    Associative([QUOTE], rest[1..][..n], Strip(rest[1..][n..]));
    assert FirstLength(rest) == 1 + n;
    Emit(content, result, i, false, false, true, false);
  }

  lemma EmitCode(content: Text, result: Text, i: nat)
    requires i < |content| && Emitted(content, result, i, false, false)
    requires content[i] != QUOTE
    requires !(content[i] == SLASH && i + 1 < |content| && (content[i + 1] == SLASH || content[i + 1] == STAR))
    ensures Emitted(content, result + [content[i]], i + 1, false, false)
  {
  }

  lemma LineRestOfOpener(t: Text)
    requires LineOpener(t)
    ensures LineRest(t) == 2 + LineRest(t[2..])
  {
    assert t[1..][1..] == t[2..];
  }

  /** Passing over a comment token keeps the invariant. */
  lemma Pass(content: Text, result: Text, i: nat, next: nat, n: nat)
    requires i < |content| && n == FirstLength(content[i..]) && IsComment(FirstToken(content[i..]))
    requires if next <= |content| then next == i + n else i + n == |content|
    requires Emitted(content, result, i, false, false)
    ensures Emitted(content, result, next, false, false)
  {
    DropDrop(content, i, n);
    StripOfComment(content[i..]);
    assert Drop(content, next) == content[i..][n..];
  }

  lemma DropDrop(t: Text, i: nat, n: nat)
    requires i + n <= |t|
    ensures t[i..][n..] == Drop(t, i + n)
  {
  }

  lemma StripOfComment(t: Text)
    requires t != [] && IsComment(FirstToken(t))
    ensures Strip(t) == Strip(t[FirstLength(t)..])
  {
    var more := Strip(t[FirstLength(t)..]);
    assert [] + more == more;
  }

  lemma PassLineComment(content: Text, result: Text, i: nat, next: nat)
    requires i + 1 < |content| && content[i] == SLASH && content[i + 1] == SLASH
    requires next == i + LineRest(content[i..]) && Emitted(content, result, i, false, false)
    ensures next > i && Emitted(content, result, next, false, false)
  {
    LineRestOfOpener(content[i..]);
    Pass(content, result, i, next, LineRest(content[i..]));
  }

  lemma PassBlockComment(content: Text, result: Text, i: nat, next: nat)
    requires i + 1 < |content| && content[i] == SLASH && content[i + 1] == STAR
    requires if next <= |content| then next == i + 2 + BlockRest(content[i + 2..])
             else i + 2 + BlockRest(content[i + 2..]) == |content|
    requires Emitted(content, result, i, false, false)
    ensures next > i && Emitted(content, result, next, false, false)
  {
    assert content[i..][2..] == content[i + 2..];
    Pass(content, result, i, next, 2 + BlockRest(content[i + 2..]));
  }
}
