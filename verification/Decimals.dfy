/** Decimal numbers as strconv and fmt print them and as readers of decimal text take them. */
module Decimals {
  function Digit(d: nat): char requires d < 10 { (d as char) + '0' }

  function Decimal(n: nat): (s: string)
    ensures s != ""
  {
    (if n < 10 then "" else Decimal(n / 10)) + [Digit(n % 10)]
  }

  predicate AllDigits(s: string) { s != "" && forall i :: 0 <= i < |s| ==> '0' <= s[i] <= '9' }

  function Number(s: string): nat
    requires forall i :: 0 <= i < |s| ==> '0' <= s[i] <= '9'
  {
    if s == "" then 0 else 10 * Number(s[..|s| - 1]) + (s[|s| - 1] - '0') as nat
  }

  lemma NumberSnoc(s: string, d: nat)
    requires d < 10 && forall i :: 0 <= i < |s| ==> '0' <= s[i] <= '9'
    ensures forall i :: 0 <= i < |s| + 1 ==> '0' <= (s + [Digit(d)])[i] <= '9'
    ensures Number(s + [Digit(d)]) == 10 * Number(s) + d
  {
  }

  /** Reading undoes printing, and a printed number is nothing but digits. */
  lemma {:induction false} DecimalIsNumber(n: nat)
    ensures AllDigits(Decimal(n)) && Number(Decimal(n)) == n
    decreases n
  {
    var p, d := n / 10, n % 10;
    var front := if n < 10 then "" else Decimal(p);
    assert n == 10 * p + d && Decimal(n) == front + [Digit(d)];
    if n >= 10 {
      DecimalIsNumber(p);
    }
    NumberSnoc(front, d);
  }

  /** A printed number begins with zero only if it is zero. */
  lemma {:induction false} NoLeadingZero(n: nat)
    ensures Decimal(n)[0] == '0' ==> Decimal(n) == "0"
    decreases n
  {
    if n >= 10 {
      NoLeadingZero(n / 10);
      assert Decimal(n)[0] == Decimal(n / 10)[0];
      assert Decimal(n / 10) == "0" ==> Number(Decimal(n / 10)) == 0;
      DecimalIsNumber(n / 10);
    }
  }

  lemma DigitsAreNot(s: string, c: char)
    requires AllDigits(s) && !('0' <= c <= '9')
    ensures c !in s
  {
  }
}
