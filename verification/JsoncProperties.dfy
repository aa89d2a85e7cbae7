/** What stripping comments keeps, what it removes, and when it changes nothing. */
module JsoncProperties {
  import opened JsText
  import opened Jsonc

  lemma FirstTokenText(t: Text)
    requires t != []
    ensures TextOf(FirstToken(t)) == t[..FirstLength(t)]
  {
    if FirstToken(t).Code? {
      assert t[..1] == [t[0]];
    }
  }

  /** Lexing loses nothing. */
  lemma {:induction false} UnlexLex(t: Text)
    ensures Unlex(Lex(t)) == t
    decreases |t|
  {
    if t != [] {
      var n := FirstLength(t);
      UnlexLex(t[n..]);
      assert Lex(t)[1..] == Lex(t[n..]);
      assert t == t[..n] + t[n..];
      FirstTokenText(t);
    }
  }

  /** Stripping removes the comment tokens and nothing else. */
  lemma {:induction false} StripRemovesComments(t: Text)
    ensures Strip(t) == Unlex(WithoutComments(Lex(t)))
    decreases |t|
  {
    if t != [] {
      var n, k := FirstLength(t), FirstToken(t);
      var more := WithoutComments(Lex(t[n..]));
      StripRemovesComments(t[n..]);
      assert Lex(t)[0] == k && Lex(t)[1..] == Lex(t[n..]);
      if IsComment(k) {
        assert [] + more == more;
        StripOfComment(t);
      } else {
        assert ([k] + more)[1..] == more;
        if k.Code? {
          assert t[..1] == [t[0]];
        }
      }
    }
  }

  // ----- a string literal does not depend on what follows it

  /** Whether the literal that `t` continues is closed. */
  predicate Closed(t: Text, escaped: bool)
    decreases |t|
  {
    t != [] && (if escaped then Closed(t[1..], false)
                else if t[0] == BACKSLASH then Closed(t[1..], true)
                else t[0] == QUOTE || Closed(t[1..], false))
  }

  lemma {:induction false} OpenRunsToEnd(t: Text, escaped: bool)
    requires !Closed(t, escaped)
    ensures StringRest(t, escaped) == |t|
    decreases |t|
  {
    if t != [] {
      OpenRunsToEnd(t[1..], !escaped && t[0] == BACKSLASH);
    }
  }

  lemma {:induction false} LiteralStaysFirst(t: Text, escaped: bool, x: Text)
    requires Closed(t, escaped) || x == []
    ensures StringRest(t[..StringRest(t, escaped)] + x, escaped) == StringRest(t, escaped)
    decreases |t|
  {
    if t == [] {
      assert t[..0] + x == [];
    } else {
      var n := StringRest(t, escaped);
      var u := t[..n] + x;
      assert u[0] == t[0];
      if escaped || t[0] != QUOTE {
        var next := !escaped && t[0] == BACKSLASH;
        LiteralStaysFirst(t[1..], next, x);
        assert n == 1 + StringRest(t[1..], next);
        Shift(t, n - 1);
        assert u[1..] == t[1..][..n - 1] + x;
      }
    }
  }

  // ----- the tokens of the stripped text

  lemma CodeStaysFirst(t: Text)
    requires t != [] && FirstToken(t).Code?
    ensures var u := [t[0]] + Strip(t[1..]);
            FirstToken(u) == Code(t[0]) && FirstLength(u) == 1 && u[1..] == Strip(t[1..])
  {
  }

  lemma StringStaysFirst(t: Text)
    requires t != [] && t[0] == QUOTE
    ensures var n := FirstLength(t);
            var u := t[..n] + Strip(t[n..]);
            FirstLength(u) == n && FirstToken(u) == FirstToken(t) && u[n..] == Strip(t[n..])
  {
    var body := t[1..];
    var n := StringRest(body, false);
    var more := Strip(t[n + 1..]);
    if !Closed(body, false) {
      OpenRunsToEnd(body, false);
      assert t[n + 1..] == [];
    }
    LiteralStaysFirst(body, false, more);
    Shift(t, n);
    var u := t[..n + 1] + more;
    assert u[1..] == body[..n] + more;
    assert u[..n + 1] == t[..n + 1] && u[n + 1..] == more;
  }

  /**
   The stripped text lexes to exactly the remaining tokens: every string literal is kept verbatim
   and in place, no comment is left, and no new one appears.
   */
  lemma {:induction false} LexOfStripped(t: Text)
    ensures Lex(Strip(t)) == WithoutComments(Lex(t))
    decreases |t|
  {
    if t != [] {
      var n, k := FirstLength(t), FirstToken(t);
      LexOfStripped(t[n..]);
      LexStep(t);
      if IsComment(k) {
        StripOfComment(t);
      } else if k.Code? {
        CodeStaysFirst(t);
        assert t[..1] == [t[0]];
        LexStep([t[0]] + Strip(t[1..]));
      } else {
        StringStaysFirst(t);
        LexStep(t[..n] + Strip(t[n..]));
      }
    }
  }

  lemma LexStep(t: Text)
    requires t != []
    ensures Lex(t) == [FirstToken(t)] + Lex(t[FirstLength(t)..])
    ensures WithoutComments(Lex(t)) ==
            (if IsComment(FirstToken(t)) then [] else [FirstToken(t)]) + WithoutComments(Lex(t[FirstLength(t)..]))
  {
    assert ([FirstToken(t)] + Lex(t[FirstLength(t)..]))[1..] == Lex(t[FirstLength(t)..]);
  }

  lemma {:induction false} WithoutCommentsTwice(ks: seq<Token>)
    ensures WithoutComments(WithoutComments(ks)) == WithoutComments(ks)
    ensures forall k :: k in WithoutComments(ks) <==> k in ks && !IsComment(k)
  {
    if ks != [] {
      var more := WithoutComments(ks[1..]);
      WithoutCommentsTwice(ks[1..]);
      assert ([ks[0]] + more)[1..] == more;
      assert [] + more == more;
    }
  }

  lemma StripIsIdempotent(t: Text)
    ensures Strip(Strip(t)) == Strip(t)
  {
    StripRemovesComments(t);
    StripRemovesComments(Strip(t));
    LexOfStripped(t);
    WithoutCommentsTwice(Lex(t));
  }

  // ----- comment-free texts

  predicate CommentFree(t: Text) {
    forall k :: k in Lex(t) ==> !IsComment(k)
  }

  lemma {:induction false} StripNeverGrows(t: Text)
    ensures |Strip(t)| <= |t|
    ensures |Strip(t)| == |t| ==> CommentFree(t)
    decreases |t|
  {
    if t != [] {
      var n := FirstLength(t);
      StripNeverGrows(t[n..]);
      LexStep(t);
    }
  }

  lemma {:induction false} NothingToRemove(ks: seq<Token>)
    requires forall k :: k in ks ==> !IsComment(k)
    ensures WithoutComments(ks) == ks
  {
    if ks != [] {
      NothingToRemove(ks[1..]);
      assert ks == [ks[0]] + ks[1..];
    }
  }

  /** Stripping changes a text exactly when the text has a comment. */
  lemma StripIsIdentityIff(t: Text)
    ensures Strip(t) == t <==> CommentFree(t)
  {
    StripNeverGrows(t);
    if CommentFree(t) {
      NothingToRemove(Lex(t));
      StripRemovesComments(t);
      UnlexLex(t);
    }
  }

  // ----- no comment opener is left outside string literals

  /** Whether position `i` lies inside a string literal, by a scan that knows only strings. */
  predicate InsideString(t: Text, i: nat, inString: bool, escaped: bool)
    requires i <= |t|
    decreases i
  {
    if i == 0 then inString
    else if !inString then InsideString(t[1..], i - 1, t[0] == QUOTE, false)
    else if escaped then InsideString(t[1..], i - 1, true, false)
    else if t[0] == BACKSLASH then InsideString(t[1..], i - 1, true, true)
    else InsideString(t[1..], i - 1, t[0] != QUOTE, false)
  }

  lemma {:induction false} InsideLiteral(t: Text, i: nat, escaped: bool)
    requires i <= |t|
    ensures i < StringRest(t, escaped) ==> InsideString(t, i, true, escaped)
    ensures Closed(t, escaped) && i >= StringRest(t, escaped) ==>
              InsideString(t, i, true, escaped) ==
              InsideString(t[StringRest(t, escaped)..], i - StringRest(t, escaped), false, false)
    ensures !Closed(t, escaped) ==> InsideString(t, i, true, escaped)
    decreases |t|
  {
    if t != [] && i > 0 {
      if escaped || t[0] != QUOTE {
        var next := !escaped && t[0] == BACKSLASH;
        InsideLiteral(t[1..], i - 1, next);
        Shift(t, StringRest(t, escaped) - 1);
      }
    } else if t != [] && Closed(t, escaped) {
      assert StringRest(t, escaped) >= 1;
    }
  }

  lemma CommentFreeTail(t: Text)
    requires t != [] && CommentFree(t)
    ensures !IsComment(FirstToken(t)) && CommentFree(t[FirstLength(t)..])
  {
    LexStep(t);
    assert FirstToken(t) in Lex(t);
    assert forall k :: k in Lex(t[FirstLength(t)..]) ==> k in Lex(t);
  }

  /** A position outside strings that is not the first lies behind the first token of a comment-free text. */
  lemma OutsideIsBehind(t: Text, i: nat)
    requires t != [] && !IsComment(FirstToken(t)) && 0 < i <= |t|
    requires !InsideString(t, i, false, false)
    ensures var n := FirstLength(t); i >= n && !InsideString(t[n..], i - n, false, false)
  {
    var body := t[1..];
    if t[0] == QUOTE {
      InsideLiteral(body, i - 1, false);
      Shift(t, StringRest(body, false));
    }
  }

  lemma {:induction false} NoOpenerOutside(t: Text, i: nat)
    requires CommentFree(t) && i <= |t|
    requires !InsideString(t, i, false, false)
    ensures !LineOpener(Drop(t, i)) && !BlockOpener(Drop(t, i))
    decreases |t|
  {
    if t != [] {
      var n := FirstLength(t);
      CommentFreeTail(t);
      if i == 0 {
        assert Drop(t, 0) == t;
      } else {
        OutsideIsBehind(t, i);
        NoOpenerOutside(t[n..], i - n);
        DropDrop(t, n, i - n);
      }
    }
  }

  /** The output has no comment opener outside its string literals. */
  lemma StrippedHasNoOpener(t: Text, i: nat)
    requires i <= |Strip(t)| && !InsideString(Strip(t), i, false, false)
    ensures !LineOpener(Drop(Strip(t), i)) && !BlockOpener(Drop(Strip(t), i))
  {
    LexOfStripped(t);
    WithoutCommentsTwice(Lex(t));
    NoOpenerOutside(Strip(t), i);
  }
}
