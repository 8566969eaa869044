/** Decimal numerals, as numbers are printed into names and links and read back. */
module Decimal {
  import opened Common

  predicate IsDigit(c: char) { '0' <= c <= '9' }

  function Digit(d: nat): char
    requires d < 10
  {
    '0' + d as char
  }

  function Print(n: nat): (s: string)
    ensures s != []
  {
    if n < 10 then [Digit(n)] else Print(n / 10) + [Digit(n % 10)]
  }

  predicate AllDigits(s: string) { forall i | 0 <= i < |s| :: IsDigit(s[i]) }

  function Value(s: string): nat
    requires AllDigits(s)
  {
    if s == [] then 0 else 10 * Value(s[..|s| - 1]) + (s[|s| - 1] as nat - '0' as nat)
  }

  lemma {:induction false} PrintThenValue(n: nat)
    ensures AllDigits(Print(n)) && Value(Print(n)) == n
  {
    if n >= 10 {
      PrintThenValue(n / 10);
      assert Print(n)[..|Print(n)| - 1] == Print(n / 10);
    } else {
      assert Print(n)[..0] == [];
    }
  }

  /** Different numbers print differently. */
  lemma {:induction false} PrintInjective(m: nat, n: nat)
    requires Print(m) == Print(n)
    ensures m == n
  {
    PrintThenValue(m);
    PrintThenValue(n);
  }

  /** `str::parse::<u16>`: an optional plus sign, at least one digit, no overflow. */
  function ParseU16(s: string): (r: Option<nat>)
    ensures r.Some? ==> r.value < 0x1_0000
  {
    var digits := if |s| > 0 && s[0] == '+' then s[1..] else s;
    if digits == [] || !AllDigits(digits) || Value(digits) >= 0x1_0000 then None else Some(Value(digits))
  }

  lemma {:induction false} PrintThenParse(n: nat)
    ensures ParseU16(Print(n)) == if n < 0x1_0000 then Some(n) else None
  {
    PrintThenValue(n);
    assert IsDigit(Print(n)[0]);
  }

  /** What `str::parse::<u16>` makes of a text: a leading plus is ignored, leading zeros are, and nothing but digits
      may follow. */
  lemma {:induction false} SignAndZeros(n: nat)
    ensures ParseU16("+" + Print(n)) == ParseU16("0" + Print(n)) == if n < 0x1_0000 then Some(n) else None
    ensures ParseU16("") == ParseU16("+") == ParseU16("-" + Print(n)) == None
  {
    var s := Print(n);
    PrintThenValue(n);
    assert ("+" + s)[1..] == s && IsDigit(s[0]) && ("-" + s)[0] == '-';
    LeadingZero(s);
  }

  lemma {:induction false} LeadingZero(s: string)
    requires AllDigits(s)
    ensures AllDigits("0" + s) && Value("0" + s) == Value(s)
    decreases |s|
  {
    var t := "0" + s;
    assert forall i | 0 <= i < |t| :: t[i] == if i == 0 then '0' else s[i - 1];
    if s == [] {
      assert t[..0] == [];
    } else {
      LeadingZero(s[..|s| - 1]);
      assert t[..|t| - 1] == "0" + s[..|s| - 1];
    }
  }
}
