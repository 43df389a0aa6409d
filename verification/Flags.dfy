/** Eight booleans in one octet, bit zero being the least significant one. */
module Flags {

  function Mask(index: nat): bv8
    requires index <= 7
  {
    if index == 0 then 1 else if index == 1 then 2 else if index == 2 then 4 else if index == 3 then 8
    else if index == 4 then 16 else if index == 5 then 32 else if index == 6 then 64 else 128
  }

  function Get(octet: bv8, index: nat): bool {
    index <= 7 && Mask(index) & octet != 0
  }

  function Set(octet: bv8, index: nat, value: bool): bv8 {
    if index > 7 then octet
    else if value then octet | Mask(index)
    else octet & !Mask(index)
  }

  lemma MasksAreApart(i: nat, j: nat)
    requires i <= 7 && j <= 7
    ensures Mask(i) != 0
    ensures i != j ==> Mask(i) & Mask(j) == 0
  {
  }

  lemma BitwiseOn(octet: bv8, m: bv8, n: bv8)
    ensures m != 0 ==> m & (octet | m) != 0
    ensures m & (octet & !m) == 0
    ensures m & n == 0 ==> n & (octet | m) == n & octet
    ensures m & n == 0 ==> n & (octet & !m) == n & octet
  {
  }

  /** Setting one boolean changes that one and no other; an index beyond seven changes nothing. */
  lemma GetAfterSet(octet: bv8, i: nat, value: bool, j: nat)
    ensures Get(Set(octet, i, value), j) == if i == j && i <= 7 then value else Get(octet, j)
  {
    if i <= 7 && j <= 7 {
      MasksAreApart(i, j);
      BitwiseOn(octet, Mask(i), Mask(j));
    }
  }

  /** The wire octet stands for the same booleans. */
  lemma OctetRoundTrip(octet: bv8)
    ensures 0 <= octet as int < 256
    ensures (octet as int) as bv8 == octet
  {
  }
}
