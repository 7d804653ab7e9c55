// Numbers in decimal, as they are typed and printed.

module Decimals {

  /** The digits of a number, without leading zeros. */
  function Dec(n: nat): (s: string)
    ensures s != "" && forall k :: 0 <= k < |s| ==> '0' <= s[k] <= '9'
  {
    var d := ['0' + (n % 10) as char];
    if n < 10 then d else Dec(n / 10) + d
  }

  function Decimal(n: int): string {
    if n < 0 then "-" + Dec(-n) else Dec(n)
  }
}
