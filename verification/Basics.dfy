/** Optional values and decimal numerals. */
module Basics {
  datatype Option<+T> = None | Some(value: T)

  /** s, followed by x when b holds. */
  function AppendIf<T(==, !new)>(s: seq<T>, b: bool, x: T): (r: seq<T>)
    ensures forall y :: y in r <==> y in s || (b && y == x)
    ensures r == [] <==> s == [] && !b
  {
    if b then s + [x] else s
  }

  function Digit(n: nat): char
    requires n < 10
  {
    "0123456789"[n]
  }

  function Decimal(n: nat): string {
    if n < 10 then [Digit(n)] else Decimal(n / 10) + [Digit(n % 10)]
  }

  function DigitValue(ch: char): nat {
    if '0' <= ch <= '9' then (ch as int) - ('0' as int) else 0
  }

  function ValueOf(s: string): nat {
    if s == "" then 0 else 10 * ValueOf(s[..|s|-1]) + DigitValue(s[|s|-1])
  }

  lemma {:induction false} DecimalValue(n: nat)
    ensures ValueOf(Decimal(n)) == n
    ensures forall ch | ch in Decimal(n) :: '0' <= ch <= '9'
  {
    var s := Decimal(n);
    if n < 10 {
      assert ValueOf(s[..0]) == 0;
      assert s[0] == Digit(n);
    } else {
      DecimalValue(n / 10);
      assert s[..|s|-1] == Decimal(n / 10) && s[|s|-1] == Digit(n % 10);
    }
  }

  lemma DecimalInjective(m: nat, n: nat)
    requires Decimal(m) == Decimal(n)
    ensures m == n
  {
    DecimalValue(m);
    DecimalValue(n);
  }
}
