/** Numbers in decimal, as they are printed and parsed. */
module DecimalText {
  import opened Wrappers

  const U64_MAX: nat := 0xffff_ffff_ffff_ffff

  function Digit(n: nat): char
    requires n < 10
  {
    '0' + n as char
  }

  function NatText(n: nat): string {
    if n < 10 then [Digit(n)] else NatText(n / 10) + [Digit(n % 10)]
  }

  predicate IsDigits(s: string) {
    forall i | 0 <= i < |s| :: '0' <= s[i] <= '9'
  }

  function DigitsValue(s: string): nat
    requires IsDigits(s)
  {
    if s == "" then 0 else DigitsValue(s[..|s| - 1]) * 10 + (s[|s| - 1] as nat - '0' as nat)
  }

  /** Parsing an unsigned 64-bit number: digits, after a plus sign or not, of a value that fits. */
  function ParseU64(s: string): (r: Option<nat>)
    ensures r.Some? ==> r.value <= U64_MAX
  {
    var digits := if s != "" && s[0] == '+' then s[1..] else s;
    if digits != "" && IsDigits(digits) && DigitsValue(digits) <= U64_MAX then Some(DigitsValue(digits)) else None
  }

  lemma {:induction false} NatTextDigits(n: nat)
    ensures NatText(n) != "" && IsDigits(NatText(n)) && DigitsValue(NatText(n)) == n
  {
    if n < 10 {
      assert NatText(n)[..0] == "" && NatText(n)[0] == Digit(n);
      assert DigitsValue("") == 0;
    } else {
      NatTextDigits(n / 10);
      assert NatText(n)[..|NatText(n)| - 1] == NatText(n / 10);
    }
  }

  /** Numbers that fit are read back as printed; larger ones are refused. */
  lemma ParseUndoesPrint(n: nat)
    ensures ParseU64(NatText(n)) == if n <= U64_MAX then Some(n) else None
  {
    NatTextDigits(n);
  }
}
