/** How JavaScript trims a text and reads an integer from it. */
module JavaScript {
  import opened Wrappers
  import Decimal

  /** White space `String.prototype.trim` removes. */
  predicate IsTrimmed(c: char) {
    var k := c as int;
    9 <= k <= 13 || k in {0x20, 0xA0, 0x1680, 0x2028, 0x2029, 0x202F, 0x205F, 0x3000, 0xFEFF} || 0x2000 <= k <= 0x200A
  }

  function Trim(s: string): string
    decreases |s|
  {
    if s == "" then s
    else if IsTrimmed(s[0]) then Trim(s[1..])
    else if IsTrimmed(s[|s| - 1]) then Trim(s[..|s| - 1])
    else s
  }

  function RadixDigit(c: char): nat {
    if '0' <= c <= '9' then c as int - '0' as int
    else if 'a' <= c <= 'f' then 10 + (c as int - 'a' as int)
    else if 'A' <= c <= 'F' then 10 + (c as int - 'A' as int)
    else 16
  }

  function RadixValue(s: string, radix: nat): Option<nat> {
    if s == "" then Some(0)
    else
      var high :- RadixValue(s[..|s| - 1], radix);
      var d := RadixDigit(s[|s| - 1]);
      if d < radix then Some(high * radix + d) else None
  }

  function DecimalValue(s: string): Option<nat> {
    if s != "" && Decimal.AllDigits(s) then Some(Decimal.Value(s)) else None
  }

  function Negated(n: Option<nat>): Option<int> {
    match n
    case None => None
    case Some(value) => Some(0 - value)
  }

  /** `BigInt` of a text: a decimal integer with an optional sign, a number with a radix prefix, or
      nothing but white space. None stands for the SyntaxError. */
  function BigIntOf(text: string): Option<int> {
    var t := Trim(text);
    if t == "" then Some(0)
    else if |t| > 2 && t[0] == '0' && t[1] in "xX" then RadixValue(t[2..], 16)
    else if |t| > 2 && t[0] == '0' && t[1] in "oO" then RadixValue(t[2..], 8)
    else if |t| > 2 && t[0] == '0' && t[1] in "bB" then RadixValue(t[2..], 2)
    else if t[0] == '-' then Negated(DecimalValue(t[1..]))
    else if t[0] == '+' then DecimalValue(t[1..])
    else DecimalValue(t)
  }

  /** The text of a natural number is read back. */
  lemma BigIntOfPrint(n: nat)
    ensures BigIntOf(Decimal.Print(n)) == Some(n)
  {
    hide Decimal.Print, Decimal.Value;
    var s := Decimal.Print(n);
    assert Decimal.IsDigit(s[0]) && Decimal.IsDigit(s[|s| - 1]);
    assert |s| > 1 ==> Decimal.IsDigit(s[1]);
    assert Trim(s) == s;
    Decimal.ValueOfPrint(n);
  }
}
