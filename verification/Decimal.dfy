/** Decimal text of integers, as `JSON.stringify` prints them. */
module Decimal {
  import opened Json

  function Digit(n: nat): (c: char)
    requires n < 10
    ensures IsDigit(c)
  {
    '0' + n as char
  }

  function NatText(n: nat): (r: string)
    ensures r != "" && AllDigits(r) && (n > 0 ==> r[0] != '0') && (n == 0 ==> r == "0")
  {
    if n < 10 then [Digit(n)] else NatText(n / 10) + [Digit(n % 10)]
  }

  function IntText(i: int): (r: string) {
    if i < 0 then "-" + NatText(-i) else NatText(i)
  }

  function Value(s: string): nat
    requires AllDigits(s)
  {
    if s == "" then 0 else 10 * Value(s[..|s| - 1]) + (s[|s| - 1] as nat - '0' as nat)
  }

  lemma {:induction false} ValueOfText(n: nat)
    ensures Value(NatText(n)) == n
  {
    if n >= 10 {
      ValueOfText(n / 10);
      assert NatText(n)[..|NatText(n)| - 1] == NatText(n / 10);
    } else {
      assert NatText(n)[..0] == "";
      assert Value([Digit(n)]) == 10 * Value([Digit(n)][..0]) + n;
    }
  }

  lemma {:induction false} DigitsDropped(s: string)
    requires AllDigits(s)
    ensures DropDigits(s) == ""
  {
    if s != "" {
      assert forall i | 0 <= i < |s[1..]| :: s[1..][i] == s[i + 1];
      DigitsDropped(s[1..]);
    }
  }

  lemma DigitsAreNumber(s: string)
    requires s != "" && AllDigits(s) && (s[0] == '0' ==> |s| == 1)
    ensures IsNumber(s) && IsNumber("-" + s)
  {
    DigitsDropped(s);
    assert ("-" + s)[1..] == s;
  }

  function NatNumber(n: nat): (v: Json)
    ensures v.Number? && v.text == NatText(n)
  {
    DigitsAreNumber(NatText(n));
    Number(NatText(n))
  }

  function IntNumber(i: int): (v: Json)
    ensures v.Number? && v.text == IntText(i)
  {
    DigitsAreNumber(NatText(if i < 0 then -i else i));
    Number(IntText(i))
  }

  lemma NatTextInjective(a: nat, b: nat)
    requires NatText(a) == NatText(b)
    ensures a == b
  {
    ValueOfText(a);
    ValueOfText(b);
  }

  lemma TextSign(i: int)
    ensures IntText(i) != "" && (IntText(i)[0] == '-' <==> i < 0)
    ensures i < 0 ==> IntText(i)[1..] == NatText(-i)
  {
    assert !IsDigit('-');
    assert i >= 0 ==> IsDigit(NatText(i)[0]);
  }

  /** Different integers have different texts. */
  lemma IntTextInjective(a: int, b: int)
    requires IntText(a) == IntText(b)
    ensures a == b
  {
    TextSign(a);
    TextSign(b);
    if a < 0 {
      NatTextInjective(-a, -b);
    } else {
      NatTextInjective(a, b);
    }
  }
}
