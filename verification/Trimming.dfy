/** `String.prototype.trim`, with the white space and line terminators of ECMA-262. */
module Trimming {
  import opened JsText

  predicate IsSpace(u: CodeUnit) {
    || 9 <= u <= 13 || u == 0x20 || u == 0xA0 || u == 0x1680 || 0x2000 <= u <= 0x200A
    || u == 0x2028 || u == 0x2029 || u == 0x202F || u == 0x205F || u == 0x3000 || u == 0xFEFF
  }

  function TrimStart(t: Text): Text {
    if t != [] && IsSpace(t[0]) then TrimStart(t[1..]) else t
  }

  function TrimEnd(t: Text): Text {
    if t != [] && IsSpace(t[|t| - 1]) then TrimEnd(t[..|t| - 1]) else t
  }

  function Trim(t: Text): Text {
    TrimEnd(TrimStart(t))
  }

  /** Neither end is white space. */
  predicate Trimmed(t: Text) {
    t == [] || (!IsSpace(t[0]) && !IsSpace(t[|t| - 1]))
  }

  lemma {:induction false} TrimStartTrims(t: Text)
    ensures var r := TrimStart(t); r == [] || !IsSpace(r[0])
  {
    if t != [] && IsSpace(t[0]) {
      TrimStartTrims(t[1..]);
    }
  }

  lemma {:induction false} TrimEndTrims(t: Text)
    requires t == [] || !IsSpace(t[0])
    ensures Trimmed(TrimEnd(t))
  {
    if t != [] && IsSpace(t[|t| - 1]) {
      TrimEndTrims(t[..|t| - 1]);
    }
  }

  lemma TrimTrims(t: Text)
    ensures Trimmed(Trim(t))
  {
    TrimStartTrims(t);
    TrimEndTrims(TrimStart(t));
  }

  /** Trimming changes nothing exactly on trimmed texts. */
  lemma TrimIsIdentityIff(t: Text)
    ensures Trim(t) == t <==> Trimmed(t)
  {
    TrimTrims(t);
  }
}
