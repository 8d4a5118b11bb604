/** Unsigned numbers as text: how offsets are written by a source and read back on resume. */
module Decimal {
  import opened Wrappers

  const U64_LIMIT: nat := 0x1_0000_0000_0000_0000

  predicate IsDigit(c: char) {
    '0' <= c <= '9'
  }

  function ToText(n: nat): (s: string)
    ensures s != [] && forall i :: 0 <= i < |s| ==> IsDigit(s[i])
  {
    var last := ['0' + (n % 10) as char];
    if n < 10 then last else ToText(n / 10) + last
  }

  /** The number a string of digits denotes, most significant digit first. */
  function Denotes(s: string): nat
    requires forall i :: 0 <= i < |s| ==> IsDigit(s[i])
  {
    if s == [] then 0
    else
      assert IsDigit(s[|s| - 1]);
      Denotes(s[..|s| - 1]) * 10 + (s[|s| - 1] as int - '0' as int)
  }

  /** The text without its plus sign, if it has one. */
  function Unsigned(s: string): string {
    if s != [] && s[0] == '+' then s[1..] else s
  }

  /** Parsing as a 64-bit unsigned number: an optional plus sign, then at least one digit, within range. */
  function ParseU64(s: string): Option<nat> {
    var digits := Unsigned(s);
    if digits == [] || exists i :: 0 <= i < |digits| && !IsDigit(digits[i]) then None
    else if Denotes(digits) >= U64_LIMIT then None
    else Some(Denotes(digits))
  }

  lemma {:induction false} DenotesToText(n: nat)
    ensures Denotes(ToText(n)) == n
  {
    var s := ToText(n);
    if n >= 10 {
      DenotesToText(n / 10);
      assert s[..|s| - 1] == ToText(n / 10);
    }
  }

  /** Writing and parsing are inverse exactly on the 64-bit range; larger numbers do not parse. */
  lemma ParseToText(n: nat)
    ensures ParseU64(ToText(n)) == if n < U64_LIMIT then Some(n) else None
  {
    DenotesToText(n);
    assert IsDigit(ToText(n)[0]);
  }

  lemma ToTextInjective(m: nat, n: nat)
    requires ToText(m) == ToText(n)
    ensures m == n
  {
    DenotesToText(m);
    DenotesToText(n);
  }

  /** A leading plus sign and leading zeros do not matter. */
  lemma {:induction false} LeadingZero(s: string)
    requires forall i :: 0 <= i < |s| ==> IsDigit(s[i])
    ensures Denotes("0" + s) == Denotes(s)
  {
    if s == [] {
      assert ("0" + s)[..0] == [];
    } else {
      LeadingZero(s[..|s| - 1]);
      assert ("0" + s)[..|s|] == "0" + s[..|s| - 1];
    }
  }

  lemma ParseLenient(n: nat)
    ensures ParseU64("+" + ToText(n)) == ParseU64("0" + ToText(n)) == ParseU64(ToText(n))
  {
    var text := ToText(n);
    var plus, zero := "+" + text, "0" + text;
    LeadingZero(text);
    assert plus[0] == '+' && plus[1..] == text;
    assert IsDigit(text[0]);
    assert zero[0] == '0' && forall i :: 0 <= i < |zero| ==> IsDigit(zero[i]);
  }

  /** Nothing else is a number: no digits at all, or anything but a digit after an optional plus sign. */
  lemma ParseStrict(s: string, i: nat)
    requires i < |s| && !IsDigit(s[i]) && (i > 0 || s[0] != '+')
    ensures ParseU64(s) == None && ParseU64("") == None && ParseU64("+") == None
  {
    var digits := Unsigned(s);
    var at := if s[0] == '+' then i - 1 else i;
    assert digits[at] == s[i];
    assert "+"[1..] == [];
  }
}
