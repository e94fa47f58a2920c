/**
 `nextPowerOf2` (src/d3d12/d3d12-descriptor-heap.cpp). A 32-bit word is the number it
 stands for; its bits are the binary digits of the number.
 */
module Words {
  import opened Subresources

  function Pow2(k: nat): (p: nat)
    ensures 1 <= p
  {
    if k == 0 then 1 else 2 * Pow2(k - 1)
  }

  predicate IsPowerOf2(n: nat) {
    n == 1 || (1 < n && n % 2 == 0 && IsPowerOf2(n / 2))
  }

  // a | b
  function Or(a: nat, b: nat): nat {
    if a == 0 && b == 0 then 0
    else 2 * Or(a / 2, b / 2) + if a % 2 == 1 || b % 2 == 1 then 1 else 0
  }

  // v >> k
  function ShiftRight(v: nat, k: nat): (r: nat)
    ensures r <= v
  {
    if k == 0 then v else ShiftRight(v / 2, k - 1)
  }

  // ---------- Smearing bits to the right ----------

  // One of the low k bits is set.
  predicate AnyLow(x: nat, k: nat) {
    0 < k && (x % 2 == 1 || AnyLow(x / 2, k - 1))
  }

  // Bit j of the result is set when one of the bits j .. j + width - 1 of x is.
  function Smear(x: nat, width: nat): nat {
    if x == 0 then 0 else 2 * Smear(x / 2, width) + if AnyLow(x, width) then 1 else 0
  }

  // All ones, as many as x has binary digits.
  function Ones(x: nat): nat {
    if x == 0 then 0 else 2 * Ones(x / 2) + 1
  }

  lemma {:induction false} SmearOne(x: nat)
    ensures Smear(x, 1) == x
  {
    if x != 0 {
      assert AnyLow(x, 1) <==> x % 2 == 1;
      SmearOne(x / 2);
    }
  }

  lemma {:induction false} SmearShifted(x: nat, width: nat, k: nat)
    ensures ShiftRight(Smear(x, width), k) == Smear(ShiftRight(x, k), width)
  {
    if k != 0 {
      assert Smear(x, width) / 2 == Smear(x / 2, width);
      SmearShifted(x / 2, width, k - 1);
    }
  }

  lemma {:induction false} AnyLowSum(x: nat, a: nat, b: nat)
    ensures AnyLow(x, a + b) <==> AnyLow(x, a) || AnyLow(ShiftRight(x, a), b)
  {
    if a != 0 {
      AnyLowSum(x / 2, a - 1, b);
    }
  }

  lemma {:induction false} ShiftHalves(x: nat, k: nat)
    ensures ShiftRight(x / 2, k) == ShiftRight(x, k) / 2
  {
    if k != 0 {
      ShiftHalves(x / 2, k - 1);
    }
  }

  lemma SmearParts(x: nat, m: nat)
    ensures Smear(x, m) / 2 == Smear(x / 2, m)
    ensures Smear(x, m) % 2 == 1 <==> AnyLow(x, m)
  {
  }

  lemma OrParts(a: nat, b: nat)
    ensures Or(a, b) / 2 == Or(a / 2, b / 2)
    ensures Or(a, b) % 2 == 1 <==> a % 2 == 1 || b % 2 == 1
  {
  }

  lemma {:induction false} SmearTogether(x: nat, m: nat)
    ensures Or(Smear(x, m), Smear(ShiftRight(x, m), m)) == Smear(x, 2 * m)
  {
    if x != 0 {
      var y := ShiftRight(x, m);
      ShiftHalves(x, m);
      AnyLowSum(x, m, m);
      SmearTogether(x / 2, m);
      SmearParts(x, m);
      SmearParts(y, m);
      SmearParts(x, 2 * m);
      OrParts(Smear(x, m), Smear(y, m));
    }
  }

  // v | (v >> m) doubles the width of a smear.
  lemma SmearDoubles(x: nat, m: nat)
    ensures var v := Smear(x, m); Or(v, ShiftRight(v, m)) == Smear(x, 2 * m)
  {
    SmearShifted(x, m, m);
    SmearTogether(x, m);
  }

  lemma {:induction false} AnyLowAll(x: nat, width: nat)
    requires 0 < x < Pow2(width)
    ensures AnyLow(x, width)
  {
    if x % 2 == 0 {
      AnyLowAll(x / 2, width - 1);
    }
  }

  lemma {:induction false} SmearAll(x: nat, width: nat)
    requires x < Pow2(width)
    ensures Smear(x, width) == Ones(x)
  {
    if x != 0 {
      AnyLowAll(x, width);
      SmearAll(x / 2, width);
    }
  }

  // ---------- nextPowerOf2 ----------

  lemma {:induction false} OnesIsNext(x: nat)
    ensures x <= Ones(x) && IsPowerOf2(Ones(x) + 1)
    ensures 0 < x ==> (Ones(x) + 1) / 2 <= x
  {
    if x != 0 {
      OnesIsNext(x / 2);
      assert (Ones(x) + 1) / 2 == Ones(x / 2) + 1;
    }
  }

  lemma {:induction false} OnesFits(x: nat, k: nat)
    requires x < Pow2(k)
    ensures Ones(x) < Pow2(k)
    ensures 0 < k && Pow2(k - 1) <= x ==> Ones(x) == Pow2(k) - 1
  {
    if x != 0 {
      OnesFits(x / 2, k - 1);
    }
  }

  lemma Pow2Values()
    ensures Pow2(31) == 0x8000_0000 && Pow2(32) == UINT32_RANGE
  {
    assert Pow2(8) == 256;
    assert Pow2(16) == 0x1_0000;
    assert Pow2(24) == 0x100_0000;
  }

  lemma OnesBelowHalf(x: nat)
    requires x < 0x8000_0000
    ensures Ones(x) < 0x8000_0000
  {
    Pow2Values();
    OnesFits(x, 31);
  }

  lemma OnesAboveHalf(x: nat)
    requires 0x8000_0000 <= x < UINT32_RANGE
    ensures Ones(x) == UINT32_RANGE - 1
  {
    Pow2Values();
    OnesFits(x, 32);
  }

  function RoundUp(v: uint32): uint32 {
    Wrap(Ones(Wrap(v - 1)) + 1)
  }

  lemma RoundUpIs(v: uint32)
    requires 1 <= v <= 0x8000_0000
    ensures RoundUp(v) == Ones(v - 1) + 1
  {
    OnesBelowHalf(v - 1);
    WrapKeeps(v - 1);
    WrapKeeps(Ones(v - 1) + 1);
  }

  lemma WrapKeeps(x: int)
    requires 0 <= x < UINT32_RANGE
    ensures Wrap(x) == x
  {
  }

  // For every word from 1 to 2^31 the least power of two that is not below it.
  lemma RoundUpIsLeast(v: uint32)
    requires 1 <= v <= 0x8000_0000
    ensures IsPowerOf2(RoundUp(v)) && v <= RoundUp(v) && RoundUp(v) / 2 < v
  {
    RoundUpIs(v);
    OnesIsNext(v - 1);
  }

  // The remaining words give 0.
  lemma RoundUpWraps(v: uint32)
    requires v == 0 || 0x8000_0000 < v
    ensures RoundUp(v) == 0
  {
    OnesAboveHalf(Wrap(v - 1));
  }

  lemma SmearWord(x: uint32)
    ensures Smear(x, 32) == Ones(x)
  {
    Pow2Values();
    SmearAll(x, 32);
  }

  // v |= v >> k
  method OrShifted(v: nat, k: nat, ghost x: nat) returns (r: nat)
    requires v == Smear(x, k)
    ensures r == Smear(x, 2 * k)
  {
    SmearDoubles(x, k);
    r := Or(v, ShiftRight(v, k));
  }

  method NextPowerOf2(v: uint32) returns (r: uint32)
    ensures r == RoundUp(v)
  {
    var w: nat := Wrap(v - 1);
    ghost var x: nat := w;
    SmearOne(x);
    w := OrShifted(w, 1, x);
    w := OrShifted(w, 2, x);
    w := OrShifted(w, 4, x);
    w := OrShifted(w, 8, x);
    w := OrShifted(w, 16, x);
    SmearWord(x);
    r := Wrap(w + 1);
  }
}
