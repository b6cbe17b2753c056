/** Word sizes, and the few facts about division that the time and chunk counts need. */
module Arithmetic {
  const TWO_32 := 0x1_0000_0000
  const TWO_64 := 0x1_0000_0000_0000_0000

  lemma MultipleIsFar(k: int, d: int)
    requires d > 0
    ensures k >= 1 ==> k * d >= d
    ensures k <= -1 ==> k * d <= -d
  {
  }

  lemma DivisionIsUnique(n: nat, d: nat, q: nat, r: nat)
    requires d > 0 && n == q * d + r && r < d
    ensures n / d == q && n % d == r
  {
    var k: int := n / d - q;
    assert n == (n / d) * d + n % d;
    assert k * d == r - n % d;
    MultipleIsFar(k, d);
  }
}
