/** Whole numbers in decimal, written and read back. */
module Decimal {
  import opened Options

  predicate AllDigits(s: string) {
    forall i :: 0 <= i < |s| ==> '0' <= s[i] <= '9'
  }

  function Digits(n: nat): (s: string)
    ensures s != "" && AllDigits(s)
  {
    (if n < 10 then "" else Digits(n / 10)) + ['0' + (n % 10) as char]
  }

  /** The number that digits spell; leading zeros are read. */
  function Value(s: string): nat
    requires AllDigits(s)
  {
    if s == "" then 0 else 10 * Value(s[..|s| - 1]) + (s[|s| - 1] as int - '0' as int)
  }

  lemma {:induction false} DigitsValue(n: nat)
    ensures Value(Digits(n)) == n
  {
    var s := Digits(n);
    assert s[..|s| - 1] == if n < 10 then "" else Digits(n / 10);
    if n >= 10 { DigitsValue(n / 10); }
  }

  function PrintInt(n: int): (s: string)
    ensures s != ""
  {
    if n < 0 then "-" + Digits(-n) else Digits(n)
  }

  function ReadInt(s: string): Option<int> {
    if s == "" then None
    else if s[0] != '-' then
      if AllDigits(s) then Some(Value(s)) else None
    else if |s| > 1 && AllDigits(s[1..]) then
      var n: int := Value(s[1..]);
      Some(-n)
    else None
  }

  lemma ReadsDigits(s: string)
    requires s != "" && AllDigits(s)
    ensures ReadInt(s) == Some(Value(s))
  {
    assert s[0] != '-';
  }

  lemma ReadsMinus(s: string)
    requires s != "" && AllDigits(s)
    ensures ReadInt("-" + s) == Some(0 - Value(s))
  {
    assert ("-" + s)[1..] == s;
  }

  lemma ReadsWhatIsPrinted(n: int)
    ensures ReadInt(PrintInt(n)) == Some(n)
  {
    var d := Digits(if n < 0 then -n else n);
    DigitsValue(if n < 0 then -n else n);
    if n < 0 { ReadsMinus(d); } else { ReadsDigits(d); }
  }
}
