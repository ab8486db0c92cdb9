/** Numbers written in decimal digits. */
module Decimals {
  import opened Matching

  predicate IsDigit(c: char) { '0' <= c <= '9' }

  predicate Numeric(text: string) {
    text != "" && forall i :: 0 <= i < |text| ==> IsDigit(text[i])
  }

  function Number(text: string): nat
    requires forall i :: 0 <= i < |text| ==> IsDigit(text[i])
  {
    if text == "" then 0
    else
      assert IsDigit(text[|text| - 1]);
      10 * Number(text[..|text| - 1]) + (text[|text| - 1] as nat - '0' as nat)
  }

  /** Reading what was written gives the number back, so different offsets make different cursors. */
  lemma {:induction false} DecimalRoundTrip(n: nat)
    ensures Numeric(Decimal(n)) && Number(Decimal(n)) == n
  {
    if n >= 10 {
      DecimalRoundTrip(n / 10);
      var text := Decimal(n);
      assert text[..|text| - 1] == Decimal(n / 10);
      DigitOf(n % 10);
    } else {
      DigitOf(n);
      assert Decimal(n)[..0] == "";
    }
  }

  lemma DigitOf(d: nat)
    requires d < 10
    ensures var c := "0123456789"[d]; IsDigit(c) && c as nat - '0' as nat == d
  {
  }
}
