/** Decimal text of a counter, as fmt's %d writes it and Sscanf's %d reads it back, and receipt numbers. */
module Decimals {
  import opened Wrappers

  predicate IsDigit(c: char) { '0' <= c <= '9' }

  function DigitValue(c: char): nat
    requires IsDigit(c)
  {
    c as int - '0' as int
  }

  function Format(n: nat): (s: string)
    ensures s != [] && forall c | c in s :: IsDigit(c)
  {
    var last := [('0' as int + n % 10) as char];
    if n < 10 then last else Format(n / 10) + last
  }

  /** The digits at the front of s, appended to those already read. */
  function ScanDigits(s: string, sofar: nat): nat
    decreases |s|
  {
    if s == [] || !IsDigit(s[0]) then sofar else ScanDigits(s[1..], 10 * sofar + DigitValue(s[0]))
  }

  function Scan(s: string): Option<nat> {
    if s == [] || !IsDigit(s[0]) then None else Some(ScanDigits(s, 0))
  }

  lemma {:induction false} ScanOneMoreDigit(s: string, c: char, sofar: nat)
    requires IsDigit(c) && forall d | d in s :: IsDigit(d)
    ensures ScanDigits(s + [c], sofar) == 10 * ScanDigits(s, sofar) + DigitValue(c)
    decreases |s|
  {
    if s == [] {
      assert ScanDigits([c], sofar) == ScanDigits([], 10 * sofar + DigitValue(c));
    } else {
      assert s[0] in s;
      assert (s + [c])[1..] == s[1..] + [c];
      ScanOneMoreDigit(s[1..], c, 10 * sofar + DigitValue(s[0]));
    }
  }

  lemma {:induction false} ScanFormatDigits(n: nat)
    ensures ScanDigits(Format(n), 0) == n
  {
    var c := ('0' as int + n % 10) as char;
    if n < 10 {
      ScanOneMoreDigit([], c, 0);
      assert [] + [c] == Format(n);
    } else {
      ScanFormatDigits(n / 10);
      ScanOneMoreDigit(Format(n / 10), c, 0);
    }
  }

  /** Reading back what was written gives the same number. */
  lemma ScanFormat(n: nat)
    ensures Scan(Format(n)) == Some(n)
  {
    ScanFormatDigits(n);
    assert Format(n)[0] in Format(n);
  }

  const RECEIPT_PREFIX := "RCP-"

  function ReceiptText(n: nat): string {
    RECEIPT_PREFIX + Format(n)
  }

  /** The number in a receipt text; 0 for a row without a receipt. */
  function ReceiptNumber(text: string): nat {
    if |text| <= 4 then 0 else ScanDigits(text[4..], 0)
  }

  lemma ReceiptNumberOfText(n: nat)
    ensures ReceiptText(n) != "" && ReceiptNumber(ReceiptText(n)) == n
  {
    assert ReceiptText(n)[4..] == Format(n);
    ScanFormatDigits(n);
  }

  /** A receipt as it is printed. */
  lemma FirstReceipt()
    ensures ReceiptText(1001) == "RCP-1001"
  {
    assert Format(1) == "1";
    assert Format(10) == Format(1) + "0";
    assert Format(100) == Format(10) + "0";
    assert Format(1001) == Format(100) + "1";
  }
}
