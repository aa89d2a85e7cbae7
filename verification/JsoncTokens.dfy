/** Where the tokens of a text end, by positions, and that this determines the tokens. */
module JsoncTokens {
  import opened JsText
  import opened Jsonc
  import opened JsoncProperties

  // ----- where a token ends

  /** `*` and `/` at position `i`. */
  predicate CloserAt(t: Text, i: nat) {
    i + 2 <= |t| && t[i] == Unit('*') && t[i + 1] == Unit('/')
  }

  /** The comment that begins `t` ends with the first closer behind its opener, or with the text. */
  predicate BlockEnds(t: Text, n: nat) {
    || (n >= 4 && CloserAt(t, n - 2) && forall i :: 2 <= i < n - 2 ==> !CloserAt(t, i))
    || (n == |t| && forall i :: 2 <= i < |t| ==> !CloserAt(t, i))
  }

  /** The comment that begins `t` ends before the first newline, or with the text. */
  predicate LineEnds(t: Text, n: nat) {
    n <= |t| && (forall i :: 0 <= i < n ==> t[i] != Unit('\n')) && (n == |t| || t[n] == Unit('\n'))
  }

  /** The number of backslashes directly before position `i`. */
  function BackslashesBefore(t: Text, i: nat): (n: nat)
    requires i <= |t|
  {
    if i == 0 || t[i - 1] != Unit('\\') then 0 else 1 + BackslashesBefore(t, i - 1)
  }

  /** A quote behind an even number of backslashes. */
  predicate QuoteAt(t: Text, i: nat) {
    i < |t| && t[i] == Unit('"') && BackslashesBefore(t, i) % 2 == 0
  }

  /** The literal that begins `t` ends with the first such quote behind its opening one, or with the text. */
  predicate StringEnds(t: Text, n: nat) {
    || (n >= 2 && QuoteAt(t, n - 1) && forall i :: 1 <= i < n - 1 ==> !QuoteAt(t, i))
    || (n == |t| && forall i :: 1 <= i < |t| ==> !QuoteAt(t, i))
  }

  /** `k` is the token with which `t` begins. */
  predicate IsFirst(t: Text, k: Token) {
    var n := |TextOf(k)|;
    0 < n <= |t| && TextOf(k) == t[..n] &&
    match k
    case StringLiteral(_) => t[0] == Unit('"') && StringEnds(t, n)
    case LineComment(_) => n >= 2 && t[0] == Unit('/') && t[1] == Unit('/') && LineEnds(t, n)
    case BlockComment(_) => n >= 2 && t[0] == Unit('/') && t[1] == Unit('*') && BlockEnds(t, n)
    case Code(_) => t[0] != Unit('"') && (|t| >= 2 && t[0] == Unit('/') ==> t[1] != Unit('/') && t[1] != Unit('*'))
  }

  /** The tokens follow one another, each the first of what is left, and use up the text. */
  predicate Tiles(t: Text, ks: seq<Token>)
    decreases ks
  {
    if ks == [] then t == [] else IsFirst(t, ks[0]) && Tiles(t[|TextOf(ks[0])|..], ks[1..])
  }

  // ----- the lengths are those

  lemma {:induction false} BlockRestEnds(t: Text)
    ensures var n := BlockRest(t);
            || (n >= 2 && CloserAt(t, n - 2) && forall i :: 0 <= i < n - 2 ==> !CloserAt(t, i))
            || (n == |t| && forall i :: 0 <= i < |t| ==> !CloserAt(t, i))
    decreases |t|
  {
    if t != [] && !CloserAt(t, 0) {
      var rest := t[1..];
      BlockRestEnds(rest);
      forall i | 1 <= i < |t|
        ensures CloserAt(t, i) <==> CloserAt(rest, i - 1)
      {
      }
    }
  }

  lemma {:induction false} LineRestEnds(t: Text)
    ensures LineEnds(t, LineRest(t))
    decreases |t|
  {
    if t != [] && t[0] != NEWLINE {
      LineRestEnds(t[1..]);
    }
  }

  /** Scanning on from position `i`, the scan being escaped behind an odd number of backslashes. */
  lemma {:induction false} StringRestEnds(t: Text, i: nat)
    requires 1 <= i <= |t| && t[0] == QUOTE
    ensures var n := i + StringRest(t[i..], BackslashesBefore(t, i) % 2 == 1);
            || (n > i && QuoteAt(t, n - 1) && forall j :: i <= j < n - 1 ==> !QuoteAt(t, j))
            || (n == |t| && forall j :: i <= j < |t| ==> !QuoteAt(t, j))
    decreases |t| - i
  {
    if i < |t| {
      assert t[i..][1..] == t[i + 1..];
      if !QuoteAt(t, i) {
        StringRestEnds(t, i + 1);
      }
    }
  }

  lemma FirstTokenIsFirst(t: Text)
    requires t != []
    ensures IsFirst(t, FirstToken(t)) && |TextOf(FirstToken(t))| == FirstLength(t)
  {
    FirstTokenText(t);
    if t[0] == QUOTE {
      StringRestEnds(t, 1);
    } else if LineOpener(t) {
      LineRestOfOpener(t);
      LineRestEnds(t);
    } else if BlockOpener(t) {
      BlockFirst(t);
    }
  }

  lemma BlockFirst(t: Text)
    requires BlockOpener(t)
    ensures BlockEnds(t, 2 + BlockRest(t[2..]))
  {
    var rest := t[2..];
    BlockRestEnds(rest);
    forall i | 2 <= i < |t|
      ensures CloserAt(t, i) <==> CloserAt(rest, i - 2)
    {
    }
  }

  // ----- and there is only one such token

  lemma OneEnd(t: Text, m: nat, n: nat)
    ensures BlockEnds(t, m) && BlockEnds(t, n) ==> m == n
    ensures LineEnds(t, m) && LineEnds(t, n) ==> m == n
    ensures StringEnds(t, m) && StringEnds(t, n) ==> m == n
  {
  }

  lemma OneFirst(t: Text, k: Token, l: Token)
    requires IsFirst(t, k) && IsFirst(t, l)
    ensures k == l
  {
    OneEnd(t, |TextOf(k)|, |TextOf(l)|);
  }

  /** The tokens of a text are the only ones that tile it. */
  lemma {:induction false} LexIff(t: Text, ks: seq<Token>)
    ensures Tiles(t, ks) <==> ks == Lex(t)
    decreases |t|
  {
    if t == [] {
      if ks != [] {
        assert !IsFirst(t, ks[0]);
      }
    } else {
      var n := FirstLength(t);
      FirstTokenIsFirst(t);
      LexIff(t[n..], Lex(t[n..]));
      LexStep(t);
      assert Lex(t)[0] == FirstToken(t) && Lex(t)[1..] == Lex(t[n..]);
      if ks != [] && IsFirst(t, ks[0]) {
        OneFirst(t, ks[0], FirstToken(t));
        LexIff(t[n..], ks[1..]);
        assert ks == [ks[0]] + ks[1..];
      }
    }
  }

  /** What stripping returns, by positions: the tokens that tile the text, without the comments. */
  lemma StripIff(t: Text, ks: seq<Token>)
    requires Tiles(t, ks)
    ensures Strip(t) == Unlex(WithoutComments(ks))
  {
    LexIff(t, ks);
    StripRemovesComments(t);
  }
}
