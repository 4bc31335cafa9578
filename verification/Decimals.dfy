/** Python's decimal text of an integer and its reading: str(n) and int(text). */
module Decimals {
  import opened Prelude

  function Digit(d: nat): char
    requires d < 10
  {
    ['0', '1', '2', '3', '4', '5', '6', '7', '8', '9'][d]
  }

  function DigitValue(c: char): (d: nat)
    requires '0' <= c <= '9'
    ensures d < 10 && Digit(d) == c
  {
    (c - '0') as int
  }

  function ShowNat(n: nat): (s: string)
    ensures s != "" && forall i :: 0 <= i < |s| ==> '0' <= s[i] <= '9'
  {
    if n < 10 then [Digit(n)] else ShowNat(n / 10) + [Digit(n % 10)]
  }

  function ShowInt(n: int): (s: string)
    ensures s != "" && forall i :: 0 <= i < |s| ==> s[i] == '-' || '0' <= s[i] <= '9'
  {
    if n < 0 then "-" + ShowNat(-n) else ShowNat(n)
  }

  function ReadNat(s: string): (r: Option<nat>)
  {
    if s == "" then None
    else
      var last := s[|s| - 1];
      if !('0' <= last <= '9') then None
      else if |s| == 1 then Some(DigitValue(last))
      else match ReadNat(s[..|s| - 1])
           case None => None
           case Some(n) => Some(10 * n + DigitValue(last))
  }

  function ReadInt(s: string): (r: Option<int>)
  {
    var negative := s != "" && s[0] == '-';
    var magnitude := ReadNat(if negative then s[1..] else s);
    if magnitude.None? then None
    else
      var n: int := magnitude.value;
      Some(if negative then -n else n)
  }

  lemma {:induction false} NatRoundTrip(n: nat)
    ensures ReadNat(ShowNat(n)) == Some(n)
  {
    if n >= 10 {
      NatRoundTrip(n / 10);
      assert ShowNat(n)[..|ShowNat(n)| - 1] == ShowNat(n / 10);
    }
  }

  /** An integer printed in decimal reads back. */
  lemma IntRoundTrip(n: int)
    ensures ReadInt(ShowInt(n)) == Some(n)
  {
    NatRoundTrip(if n < 0 then -n else n);
    if n < 0 {
      assert ShowInt(n)[1..] == ShowNat(-n);
    }
  }

  /** A minus sign leads exactly the negative numbers, and no digit but a lone zero leads with zero. */
  lemma LeadingDigit(n: int)
    ensures ShowInt(n)[0] == '-' <==> n < 0
    ensures n >= 0 ==> (ShowInt(n)[0] == '0' <==> n == 0) && (n == 0 ==> ShowInt(n) == "0")
  {
    if n >= 0 {
      LeadingDigitOfNat(n);
    }
  }

  lemma {:induction false} LeadingDigitOfNat(n: nat)
    ensures ShowNat(n)[0] == '0' <==> n == 0
  {
    if n >= 10 {
      LeadingDigitOfNat(n / 10);
    }
  }
}
