/** Decimal numerals as the reports and the switches of the configuration write them. */
module Decimal {

  predicate IsDigit(c: char) {
    '0' <= c <= '9'
  }

  predicate IsNumeral(s: string) {
    s != "" && forall i :: 0 <= i < |s| ==> IsDigit(s[i])
  }

  function Show(n: nat): (s: string)
    ensures IsNumeral(s)
  {
    var d := ('0' as int + n % 10) as char;
    if n < 10 then [d] else Show(n / 10) + [d]
  }

  /** The value of a numeral; leading zeros are allowed. */
  function Read(s: string): (n: nat)
    requires IsNumeral(s)
  {
    var d := s[|s| - 1] as int - '0' as int;
    if |s| == 1 then d else 10 * Read(s[..|s| - 1]) + d
  }

  lemma {:induction false} RoundTrip(n: nat)
    ensures Read(Show(n)) == n
  {
    if n >= 10 {
      RoundTrip(n / 10);
      var s := Show(n);
      assert s[..|s| - 1] == Show(n / 10);
    }
  }

  /** A leading zero does not change the value. */
  lemma {:induction false} LeadingZero(s: string)
    requires IsNumeral(s)
    ensures IsNumeral("0" + s) && Read("0" + s) == Read(s)
  {
    var z := "0" + s;
    assert z[..|z| - 1] == "0" + s[..|s| - 1];
    if |s| > 1 {
      LeadingZero(s[..|s| - 1]);
    } else {
      assert z[..1] == "0";
    }
  }
}
