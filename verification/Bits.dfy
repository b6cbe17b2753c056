/** Machine words as naturals, with the bitwise operations of C defined digit by digit. */
module Bits {
  predicate Bit(m: nat, i: nat) {
    if i == 0 then m % 2 == 1 else Bit(m / 2, i - 1)
  }

  function Or(a: nat, b: nat): nat {
    if a == 0 then b else 2 * Or(a / 2, b / 2) + if a % 2 == 1 || b % 2 == 1 then 1 else 0
  }

  function And(a: nat, b: nat): nat {
    if a == 0 then 0 else 2 * And(a / 2, b / 2) + if a % 2 == 1 && b % 2 == 1 then 1 else 0
  }

  /** a & ~b */
  function AndNot(a: nat, b: nat): nat {
    if a == 0 then 0 else 2 * AndNot(a / 2, b / 2) + if a % 2 == 1 && b % 2 == 0 then 1 else 0
  }

  /** 1 << i */
  function Shifted(i: nat): (p: nat)
    ensures p > 0
  {
    if i == 0 then 1 else 2 * Shifted(i - 1)
  }

  /** __builtin_popcount */
  function Popcount(m: nat): nat {
    if m == 0 then 0 else m % 2 + Popcount(m / 2)
  }

  /** __builtin_ctzll, which is undefined for zero. */
  function Ctz(m: nat): nat
    requires m != 0
  {
    if m % 2 == 1 then 0 else 1 + Ctz(m / 2)
  }

  /** The positions of the set bits of `m`, counted from `base`, in ascending order. */
  function Positions(m: nat, base: nat): seq<nat> {
    if m == 0 then [] else (if m % 2 == 1 then [base] else []) + Positions(m / 2, base + 1)
  }

  lemma ZeroBit(i: nat)
    ensures !Bit(0, i)
  {
  }

  /** Setting bit `i` sets it, leaves the others alone and counts once if it was clear. */
  lemma {:induction false} SetBit(m: nat, i: nat)
    ensures Popcount(Or(m, Shifted(i))) == Popcount(m) + if Bit(m, i) then 0 else 1
    ensures Bit(Or(m, Shifted(i)), i)
    decreases i
  {
    if m == 0 {
      ShiftedBits(i, i);
      ZeroBit(i);
    } else if i == 0 {
      assert Or(m / 2, 0) == m / 2 by { OrZero(m / 2); }
    } else {
      SetBit(m / 2, i - 1);
      assert Shifted(i) % 2 == 0 && Shifted(i) / 2 == Shifted(i - 1);
      var r := Or(m, Shifted(i));
      assert r % 2 == m % 2 && r / 2 == Or(m / 2, Shifted(i - 1));
    }
  }

  lemma {:induction false} SetBitFrame(m: nat, i: nat, j: nat)
    requires i != j
    ensures Bit(Or(m, Shifted(i)), j) == Bit(m, j)
    decreases j
  {
    if m == 0 {
      ShiftedBits(i, j);
      ZeroBit(j);
    } else if i == 0 {
      OrZero(m / 2);
      assert Or(m, 1) / 2 == m / 2;
    } else {
      assert Shifted(i) % 2 == 0 && Shifted(i) / 2 == Shifted(i - 1);
      var r := Or(m, Shifted(i));
      assert r % 2 == m % 2 && r / 2 == Or(m / 2, Shifted(i - 1));
      if j > 0 {
        SetBitFrame(m / 2, i - 1, j - 1);
      }
    }
  }

  lemma {:induction false} OrZero(m: nat)
    ensures Or(m, 0) == m
  {
    if m > 0 {
      OrZero(m / 2);
    }
  }

  lemma {:induction false} AndNotZero(m: nat)
    ensures AndNot(m, 0) == m
  {
    if m > 0 {
      AndNotZero(m / 2);
    }
  }

  lemma {:induction false} ShiftedBits(i: nat, j: nat)
    ensures Bit(Shifted(i), j) <==> i == j
    ensures Popcount(Shifted(i)) == 1
    decreases i
  {
    if i == 0 {
      if j > 0 { ZeroBit(j - 1); }
    } else {
      assert Shifted(i) % 2 == 0 && Shifted(i) / 2 == Shifted(i - 1);
      ShiftedBits(i - 1, if j == 0 then 0 else j - 1);
    }
  }

  /** Clearing bit `i` clears it, leaves the others alone and counts once if it was set. */
  lemma {:induction false} ClearBit(m: nat, i: nat)
    ensures Popcount(AndNot(m, Shifted(i))) == Popcount(m) - if Bit(m, i) then 1 else 0
    ensures !Bit(AndNot(m, Shifted(i)), i)
    ensures AndNot(m, Shifted(i)) <= m
    decreases i
  {
    if m == 0 {
      ZeroBit(i);
    } else if i == 0 {
      AndNotZero(m / 2);
      assert AndNot(m, 1) == 2 * (m / 2);
    } else {
      ClearBit(m / 2, i - 1);
      assert Shifted(i) % 2 == 0 && Shifted(i) / 2 == Shifted(i - 1);
      var r := AndNot(m, Shifted(i));
      assert r % 2 == m % 2 && r / 2 == AndNot(m / 2, Shifted(i - 1));
    }
  }

  lemma {:induction false} ClearBitFrame(m: nat, i: nat, j: nat)
    requires i != j
    ensures Bit(AndNot(m, Shifted(i)), j) == Bit(m, j)
    decreases j
  {
    if m == 0 {
    } else if i == 0 {
      AndNotZero(m / 2);
      assert AndNot(m, 1) == 2 * (m / 2);
    } else {
      assert Shifted(i) % 2 == 0 && Shifted(i) / 2 == Shifted(i - 1);
      var r := AndNot(m, Shifted(i));
      assert r % 2 == m % 2 && r / 2 == AndNot(m / 2, Shifted(i - 1));
      if j > 0 {
        ClearBitFrame(m / 2, i - 1, j - 1);
      }
    }
  }

  lemma {:induction false} PopcountZero(m: nat)
    ensures Popcount(m) == 0 <==> m == 0
  {
    if m > 0 {
      PopcountZero(m / 2);
    }
  }

  /** A word of `w` bits has at most `w` set bits, and setting one of its bits keeps it a word. */
  lemma {:induction false} WordBounds(m: nat, w: nat, i: nat)
    requires m < Shifted(w)
    ensures Popcount(m) <= w
    ensures i < w ==> Or(m, Shifted(i)) < Shifted(w)
    decreases w
  {
    if w > 0 {
      WordBounds(m / 2, w - 1, if i == 0 then 0 else i - 1);
      if i == 0 {
        OrZero(m / 2);
        OrZero(0);
      }
      if m == 0 && i < w {
        ShiftedGrows(i, w);
      }
    }
  }

  lemma {:induction false} ShiftedGrows(i: nat, w: nat)
    requires i < w
    ensures Shifted(i) < Shifted(w)
  {
    if i + 1 < w {
      ShiftedGrows(i, w - 1);
    }
  }

  // ---------------------------------------------------------------------------
  // Walking the set bits

  /** mask & (mask - 1) clears the lowest set bit and nothing else. */
  lemma {:induction false} ClearLowest(m: nat, base: nat)
    requires m > 0
    ensures Positions(m, base) == [base + Ctz(m)] + Positions(And(m, m - 1), base)
    ensures And(m, m - 1) < m
  {
    if m % 2 == 1 {
      assert (m - 1) / 2 == m / 2;
      AndSelf(m / 2);
      assert And(m, m - 1) == 2 * (m / 2);
      if m / 2 == 0 {
        assert Positions(0, base + 1) == [];
      } else {
        assert Positions(2 * (m / 2), base) == [] + Positions(m / 2, base + 1);
      }
    } else {
      var h := m / 2;
      assert (m - 1) / 2 == h - 1;
      ClearLowest(h, base + 1);
      var r := And(h, h - 1);
      assert And(m, m - 1) == 2 * r;
      assert Positions(2 * r, base) == Positions(r, base + 1);
    }
  }

  lemma {:induction false} AndSelf(m: nat)
    ensures And(m, m) == m
  {
    if m > 0 {
      AndSelf(m / 2);
    }
  }

  /** The positions are as many as the popcount and ascend; each is a set bit, and each set bit is one. */
  lemma {:induction false} PositionsAscend(m: nat, base: nat)
    ensures |Positions(m, base)| == Popcount(m)
    ensures forall k :: 0 <= k < |Positions(m, base)| ==> Positions(m, base)[k] >= base
    ensures forall j, k :: 0 <= j < k < |Positions(m, base)| ==> Positions(m, base)[j] < Positions(m, base)[k]
  {
    if m > 0 {
      PositionsAscend(m / 2, base + 1);
    }
  }

  lemma {:induction false} PositionsAreBits(m: nat, base: nat, i: nat)
    ensures base + i in Positions(m, base) <==> Bit(m, i)
    decreases m
  {
    if m == 0 {
      ZeroBit(i);
    } else {
      var low, rest := if m % 2 == 1 then [base] else [], Positions(m / 2, base + 1);
      assert Positions(m, base) == low + rest && (Bit(m, i) <==> if i == 0 then m % 2 == 1 else Bit(m / 2, i - 1));
      PositionsAscend(m / 2, base + 1);
      if i > 0 {
        PositionsAreBits(m / 2, base + 1, i - 1);
      }
      hide Positions, Bit;
      InEither(low, rest, base + i);
    }
  }

  lemma InEither(a: seq<nat>, b: seq<nat>, x: nat)
    ensures x in a + b <==> x in a || x in b
  {
  }

  /** The loop over the active eth cores: it visits each set bit once, in ascending order, and ends. */
  method WalkSetBits(mask: nat) returns (visited: seq<nat>)
    ensures |visited| == Popcount(mask)
    ensures forall i: nat :: i in visited <==> Bit(mask, i)
    ensures forall j, k :: 0 <= j < k < |visited| ==> visited[j] < visited[k]
  {
    hide Positions, Bit, Popcount, And, Ctz;
    visited := [];
    var rest := mask;
    while rest != 0
      invariant visited + Positions(rest, 0) == Positions(mask, 0)
      decreases rest
    {
      ClearLowest(rest, 0);
      visited := visited + [Ctz(rest)];
      rest := And(rest, rest - 1);
    }
    NoPositions(0);
    assert visited == Positions(mask, 0);
    PositionsAscend(mask, 0);
    forall i: nat ensures i in visited <==> Bit(mask, i) {
      PositionsAreBits(mask, 0, i);
    }
  }

  lemma NoPositions(base: nat)
    ensures Positions(0, base) == []
  {
  }
}
