/** Role ARNs and role session names (src/aws/credentials/helpers.ts, src/aws/sts/session-name.ts). */
module RoleArns {
  import opened Wrappers
  import opened JsText
  import opened Trimming

  predicate IsWord(u: CodeUnit) {
    IsDigit(u) || 0x41 <= u <= 0x5A || 0x61 <= u <= 0x7A || u == 0x5F
  }

  /** `[\w+=,.@-]`. */
  predicate IsSessionUnit(u: CodeUnit) {
    IsWord(u) || u == 0x2B || u == 0x3D || u == 0x2C || u == 0x2E || u == 0x40 || u == 0x2D
  }

  predicate IsRoleUnit(u: CodeUnit) { IsSessionUnit(u) || u == 0x2F }

  predicate All(p: CodeUnit -> bool, t: Text) {
    forall i :: 0 <= i < |t| ==> p(t[i])
  }

  /** `/^arn:aws:iam::\d{12}:role\/[\w+=,.@\-/]+$/`. */
  predicate IsValidRoleArn(t: Text) {
    && |t| > 31
    && t[..13] == Units("arn:aws:iam::")
    && All(IsDigit, t[13..25])
    && t[25..31] == Units(":role/")
    && All(IsRoleUnit, t[31..])
  }

  lemma ValidArnHasNoNul(t: Text)
    requires IsValidRoleArn(t)
    ensures 0 !in t
  {
  }

  /** What a valid role ARN is made of. */
  lemma RoleArnIff(t: Text)
    ensures IsValidRoleArn(t) <==>
            exists account, path ::
              && |account| == 12 && All(IsDigit, account) && |path| > 0 && All(IsRoleUnit, path)
              && t == Units("arn:aws:iam::") + account + Units(":role/") + path
  {
    if IsValidRoleArn(t) {
      assert t == Units("arn:aws:iam::") + t[13..25] + Units(":role/") + t[31..];
    }
    if account, path :| |account| == 12 && All(IsDigit, account) && |path| > 0 && All(IsRoleUnit, path)
                        && t == Units("arn:aws:iam::") + account + Units(":role/") + path {
      assert t[..13] == Units("arn:aws:iam::") && t[13..25] == account && t[25..31] == Units(":role/")
        && t[31..] == path;
    }
  }

  // ----- session names

  const MAX_SESSION_NAME_LENGTH := 64

  const TWO_32: nat := 0x1_0000_0000

  /** The rolling hash of a text, as an unsigned 32-bit number. */
  function HashOf(t: Text): nat {
    if t == [] then 0 else (HashOf(t[..|t| - 1]) * 31 + t[|t| - 1]) % TWO_32
  }

  function Base36Digit(n: nat): CodeUnit
    requires n < 36
  {
    if n < 10 then 0x30 + n else 0x61 + (n - 10)
  }

  function Base36(n: nat): Text {
    if n < 36 then [Base36Digit(n)] else Base36(n / 36) + [Base36Digit(n % 36)]
  }

  function PadStart(t: Text, width: nat, u: CodeUnit): Text {
    if |t| >= width then t else seq(width - |t|, _ => u) + t
  }

  /** `t.slice(0, n)`. */
  function FirstUnits(t: Text, n: nat): Text {
    if |t| > n then t[..n] else t
  }

  function Pow36(k: nat): nat {
    if k == 0 then 1 else 36 * Pow36(k - 1)
  }

  lemma {:induction false} Base36Length(n: nat, k: nat)
    requires k >= 1 && n < Pow36(k)
    ensures 1 <= |Base36(n)| <= k
  {
    if n >= 36 {
      assert k > 1 by {
        assert Pow36(1) == 36 * Pow36(0);
      }
      Base36Length(n / 36, k - 1);
    }
  }

  /** Every step of the hash is an exact double, and the printed hash has seven characters without cutting. */
  method ShortHash(value: Text) returns (r: Text)
    ensures r == PadStart(Base36(HashOf(value)), 7, 0x30)
    ensures |r| == 7
  {
    var hash := 0;
    for i := 0 to |value|
      invariant hash == HashOf(value[..i]) && hash < TWO_32
    {
      assert value[..i + 1][..i] == value[..i];
      var step := hash * 31 + value[i];
      assert 0 <= step < 0x20_0000_0000_0000;
      hash := step % TWO_32;
    }
    assert value[..|value|] == value;
    assert Pow36(7) == 78364164096 by {
      assert Pow36(1) == 36 && Pow36(2) == 1296 && Pow36(3) == 46656;
      assert Pow36(4) == 1679616 && Pow36(5) == 60466176 && Pow36(6) == 2176782336;
    }
    Base36Length(hash, 7);
    r := FirstUnits(PadStart(Base36(hash), 7, 0x30), 7);
  }

  method BuildRoleSessionName(roleArn: Text, sessionName: Option<Text>) returns (r: Option<Text>)
    ensures sessionName.Some? && sessionName.value != [] ==>
              var trimmed := Trim(sessionName.value);
              r == if trimmed != [] && |trimmed| <= 64 && All(IsSessionUnit, trimmed)
                   then Some(trimmed) else None
    ensures sessionName.None? || sessionName.value == [] ==>
              r == Some(Units("aws-mcp-gateway-") + PadStart(Base36(HashOf(roleArn)), 7, 0x30)) && |r.value| == 23
  {
    if sessionName.Some? && sessionName.value != [] {
      var trimmed := Trim(sessionName.value);
      if trimmed == [] || |trimmed| > MAX_SESSION_NAME_LENGTH || !All(IsSessionUnit, trimmed) {
        return None;
      }
      return Some(trimmed);
    }
    var suffix := ShortHash(roleArn);
    var base := Units("aws-mcp-gateway-") + suffix;
    assert |Units("aws-mcp-gateway-")| == 16;
    return Some(FirstUnits(base, MAX_SESSION_NAME_LENGTH));
  }

  // ----- what the hash is, and what is printed of it

  function Power(base: nat, k: nat): nat {
    if k == 0 then 1 else base * Power(base, k - 1)
  }

  /** The text as a number with its units as digits to the base 31. */
  function Polynomial(t: Text): nat {
    if t == [] then 0 else t[0] * Power(31, |t| - 1) + Polynomial(t[1..])
  }

  lemma {:induction false} PolynomialLast(t: Text, u: CodeUnit)
    ensures Polynomial(t + [u]) == 31 * Polynomial(t) + u
  {
    if t == [] {
      assert [u][1..] == [];
      assert Power(31, 0) == 1;
    } else {
      assert (t + [u])[1..] == t[1..] + [u];
      PolynomialLast(t[1..], u);
      assert t[0] * Power(31, |t|) == 31 * (t[0] * Power(31, |t| - 1));
    }
  }

  /** Reducing before a step makes no difference after it. */
  lemma ReducedStep(a: nat, u: nat)
    ensures ((a % 0x1_0000_0000) * 31 + u) % 0x1_0000_0000 == (31 * a + u) % 0x1_0000_0000
  {
    var q, b := a / 0x1_0000_0000, a % 0x1_0000_0000;
    assert 31 * a + u == 0x1_0000_0000 * (31 * q) + (31 * b + u);
  }

  /** The rolling hash is the polynomial modulo 2^32. */
  lemma {:induction false} HashIsPolynomial(t: Text)
    ensures HashOf(t) == Polynomial(t) % 0x1_0000_0000
  {
    if t != [] {
      var init, u := t[..|t| - 1], t[|t| - 1];
      assert t == init + [u];
      HashIsPolynomial(init);
      PolynomialLast(init, u);
      ReducedStep(Polynomial(init), u);
    }
  }

  /** The value of a digit of `0-9a-z`. */
  function DigitOf(u: CodeUnit): Option<nat> {
    if 0x30 <= u <= 0x39 then Some(u - 0x30) else if 0x61 <= u <= 0x7A then Some(10 + u - 0x61) else None
  }

  /** The number that a text spells to the base 36. */
  function Spelled(t: Text): Option<nat> {
    if t == [] then Some(0) else
      var more, digit := Spelled(t[..|t| - 1]), DigitOf(t[|t| - 1]);
      if more.None? || digit.None? then None else Some(36 * more.value + digit.value)
  }

  lemma {:induction false} Base36Spells(n: nat)
    ensures Spelled(Base36(n)) == Some(n)
  {
    if n >= 36 {
      Base36Spells(n / 36);
      assert Base36(n)[..|Base36(n)| - 1] == Base36(n / 36);
    } else {
      assert Base36(n)[..0] == [];
      assert Spelled([]) == Some(0);
    }
  }

  lemma {:induction false} ZerosAdd(k: nat, t: Text)
    ensures Spelled(seq(k, _ => 0x30) + t) == Spelled(t)
    decreases k + |t|
  {
    var zeros: Text := seq(k, _ => 0x30);
    if t == [] {
      assert zeros + t == zeros;
      if k > 0 {
        assert zeros[..k - 1] == seq(k - 1, _ => 0x30) + [];
        ZerosAdd(k - 1, []);
      }
    } else {
      assert (zeros + t)[..|zeros + t| - 1] == zeros + t[..|t| - 1];
      ZerosAdd(k, t[..|t| - 1]);
    }
  }

  /** The default suffix spells, to the base 36, the hash polynomial of the ARN modulo 2^32. */
  lemma SuffixSpellsHash(roleArn: Text)
    ensures Spelled(PadStart(Base36(HashOf(roleArn)), 7, 0x30)) == Some(Polynomial(roleArn) % 0x1_0000_0000)
  {
    var digits := Base36(HashOf(roleArn));
    Base36Spells(HashOf(roleArn));
    HashIsPolynomial(roleArn);
    if |digits| < 7 {
      ZerosAdd(7 - |digits|, digits);
    }
  }
}
