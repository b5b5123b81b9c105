/** Record identifiers minted from the clock: the store names a new record
    `<prefix><Date.now()>`, a kind prefix followed by the current time in
    milliseconds written in decimal. The clock reading is a parameter here. */
module Ids {

  const BookingPrefix := "booking-"
  const MenuPrefix := "menu-"
  const GalleryPrefix := "gallery-"
  const TablePrefix := "table-"

  function DigitChar(d: nat): (c: char)
    requires d < 10
    ensures '0' <= c <= '9'
  {
    (48 + d) as char
  }

  /** The number a string of decimal digits spells, most significant digit
      first. */
  function DigitsValue(s: string): int {
    if |s| == 0 then 0 else 10 * DigitsValue(s[..|s| - 1]) + (s[|s| - 1] as int - '0' as int)
  }

  /** `n` in decimal, most significant digit first, without leading zeros:
      the digits spell `n`. */
  function Decimal(n: nat): (r: string)
    ensures |r| >= 1
    ensures |r| == 1 <==> n < 10
    ensures forall i :: 0 <= i < |r| ==> '0' <= r[i] <= '9'
    ensures DigitsValue(r) == n
    ensures n >= 10 ==> r[0] != '0'
  {
    if n < 10 then [DigitChar(n)]
    else
      var r := Decimal(n / 10) + [DigitChar(n % 10)];
      assert r[..|r| - 1] == Decimal(n / 10);
      r
  }

  /** Distinct numbers are written differently. */
  lemma DecimalInjective(a: nat, b: nat)
    requires Decimal(a) == Decimal(b)
    ensures a == b
  {
    assert DigitsValue(Decimal(a)) == a && DigitsValue(Decimal(b)) == b;
  }

  /** The id given to a record created at time `now`. */
  function MintId(prefix: string, now: nat): (id: string)
    ensures |id| > |prefix| && id[..|prefix|] == prefix
  {
    prefix + Decimal(now)
  }

  /** Two records of one kind created at different instants get different
      ids; created within the same millisecond they get the same one. */
  lemma MintIdInjective(prefix: string, a: nat, b: nat)
    ensures MintId(prefix, a) == MintId(prefix, b) <==> a == b
  {
    if MintId(prefix, a) == MintId(prefix, b) {
      assert MintId(prefix, a)[|prefix|..] == Decimal(a);
      assert MintId(prefix, b)[|prefix|..] == Decimal(b);
      DecimalInjective(a, b);
    }
  }
}
