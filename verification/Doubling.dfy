/** Doubling as arithmetic on 128-bit numbers: multiplication by x in GF(2^128), section 2 of RFC 7253. */
module Doubling {
  import opened Blocks
  import opened Iv
  import opened Numbers

  /** A byte string as a number, most significant byte first. */
  function BigValue(s: Bytes): nat {
    if s == [] then 0 else 256 * BigValue(s[..|s| - 1]) + ByteVal(s[|s| - 1])
  }

  /** The polynomial x^7 + x^2 + x + 1. */
  const REDUCTION: Block := Zeros(15) + [0x87]

  lemma ReductionValue()
    ensures BigValue(REDUCTION) == 128 + 4 + 2 + 1
  {
    assert REDUCTION[..15] == Zeros(15);
    ZerosValue(15);
  }

  lemma {:induction false} ZerosValue(n: nat)
    ensures BigValue(Zeros(n)) == 0
  {
    if n > 0 {
      assert Zeros(n)[..n - 1] == Zeros(n - 1);
      ZerosValue(n - 1);
    }
  }

  // ---------------------------------------------------------------- one byte

  function Up(x: bv8): bv8 {
    x << 1
  }

  lemma UpVal(x: bv8)
    ensures ByteVal(Up(x)) == 2 * ByteVal(x) % 256
  {
  }

  predicate TopSet(y: bv8) {
    y >= 0x80
  }

  lemma TopVal(y: bv8)
    ensures TopSet(y) <==> ByteVal(y) >= 128
  {
  }

  lemma ShiftCases(x: bv8, y: bv8)
    ensures ShiftByte(x, y) == if TopSet(y) then Next(Up(x)) else Up(x)
  {
  }

  lemma ShiftVal(x: bv8, y: bv8)
    ensures ByteVal(ShiftByte(x, y)) == 2 * ByteVal(x) % 256 + ByteVal(y) / 128
  {
    hide *;
    UpVal(x);
    TopVal(y);
    ShiftCases(x, y);
    Halves(ByteVal(y));
    EvenBelow(ByteVal(x));
    NextValue(Up(x));
  }

  lemma Halves(x: nat)
    requires x < 256
    ensures x / 128 == if x >= 128 then 1 else 0
  {
  }

  lemma EvenBelow(x: nat)
    requires x < 256
    ensures 2 * x % 256 < 255
  {
  }

  lemma LastVal(x: bv8, top: bv8)
    ensures ByteVal(XorByte(ShiftLast(x, top), if ByteVal(top) >= 128 then 0x87 else 0)) == 2 * ByteVal(x) % 256
  {
  }

  // ---------------------------------------------------------------- the whole block

  predicate ShiftedAt(s: Bytes, t: Bytes, low: nat, i: nat)
    requires i < |s| == |t|
  {
    ByteVal(t[i]) == 2 * ByteVal(s[i]) % 256 + if i + 1 < |s| then ByteVal(s[i + 1]) / 128 else low
  }

  /** `t` is `s` shifted left by one bit, with `low` coming in on the right. */
  ghost predicate Shifted(s: Bytes, t: Bytes, low: nat) {
    |s| == |t| && low < 2 && forall i | 0 <= i < |s| :: ShiftedAt(s, t, low, i)
  }

  lemma {:induction false} ShiftedValue(s: Bytes, t: Bytes, low: nat)
    requires Shifted(s, t, low) && s != []
    ensures BigValue(t) + Pow256(|s|) * (ByteVal(s[0]) / 128) == 2 * BigValue(s) + low
    decreases |s|
  {
    hide ByteVal, Pow256;
    var n := |s| - 1;
    ShiftedEnd(s, t, low);
    PowStep(n);
    if n == 0 {
      assert s[..0] == [] && t[..0] == [];
    } else {
      hide Shifted, BigValue;
      ShiftedValue(s[..n], t[..n], ByteVal(s[n]) / 128);
      Scale(BigValue(t[..n]), Pow256(n), ByteVal(s[0]) / 128);
    }
  }

  lemma PowStep(n: nat)
    ensures Pow256(n + 1) == 256 * Pow256(n) && Pow256(0) == 1
  {
  }

  // The last byte of a shifted string, and what is left of the shift before it.
  lemma ShiftedEnd(s: Bytes, t: Bytes, low: nat)
    requires Shifted(s, t, low) && s != []
    ensures var n := |s| - 1; var top := ByteVal(s[n]) / 128;
      && Shifted(s[..n], t[..n], top) && low < 2
      && BigValue(s) == 256 * BigValue(s[..n]) + ByteVal(s[n])
      && BigValue(t) == 256 * BigValue(t[..n]) + ByteVal(t[n])
      && ByteVal(t[n]) + 256 * top == 2 * ByteVal(s[n]) + low
  {
    hide ByteVal;
    var n := |s| - 1;
    Carry(ByteVal(s[n]));
    assert ShiftedAt(s, t, low, n);
    forall i | 0 <= i < n
      ensures ShiftedAt(s[..n], t[..n], ByteVal(s[n]) / 128, i)
    {
      assert ShiftedAt(s, t, low, i);
    }
  }

  lemma Carry(x: nat)
    requires x < 256
    ensures 2 * x % 256 + 256 * (x / 128) == 2 * x && x / 128 < 2
  {
  }

  lemma Scale(a: nat, p: nat, b: nat)
    ensures 256 * (a + p * b) == 256 * a + (256 * p) * b
  {
  }

  lemma {:induction false} BigValueBound(s: Bytes)
    ensures BigValue(s) < Pow256(|s|)
  {
    hide ByteVal;
    if s != [] {
      BigValueBound(s[..|s| - 1]);
    }
  }

  /** `Double` before its reduction. */
  function Unreduced(b: Block): Block {
    XorBlock(Double(b), if ByteVal(b[0]) >= 128 then REDUCTION else ZERO)
  }

  lemma UnreducedAt(b: Block, i: nat)
    requires i < 16
    ensures ShiftedAt(b, Unreduced(b), 0, i)
  {
    hide ByteVal, ShiftByte, ShiftLast, XorByte;
    if i < 15 {
      AddsNothing(ShiftByte(b[i], b[i + 1]));
      ShiftVal(b[i], b[i + 1]);
    } else {
      LastVal(b[15], b[0]);
    }
  }

  lemma ShiftedDouble(b: Block)
    ensures Shifted(b, Unreduced(b), 0)
  {
    hide ShiftedAt, Unreduced;
    forall i | 0 <= i < |b|
      ensures ShiftedAt(b, Unreduced(b), 0, i)
    {
      UnreducedAt(b, i);
    }
  }

  lemma AddsNothing(x: bv8)
    ensures XorByte(x, 0) == x
  {
  }

  /** Doubling gives twice the value modulo 2^128, plus the reduction exactly when the top bit was set. */
  lemma DoubleIs(b: Block)
    ensures BigValue(XorBlock(Double(b), if BigValue(b) >= IV_SPACE / 2 then REDUCTION else ZERO)) == 2 * BigValue(b) % IV_SPACE
  {
    hide ByteVal, Double, XorBlock, BigValue, Shifted, Pow256, REDUCTION, ZERO;
    TopBit(b);
    UnreducedValue(b);
  }

  lemma UnreducedValue(b: Block)
    ensures BigValue(Unreduced(b)) == 2 * BigValue(b) % IV_SPACE
  {
    hide ByteVal, BigValue, Unreduced, Shifted, Pow256;
    ShiftedDouble(b);
    ShiftedValue(b, Unreduced(b), 0);
    BigValueBound(Unreduced(b));
    BigValueBound(b);
    IvSpace();
    Halves(ByteVal(b[0]));
    Modulo(BigValue(Unreduced(b)), BigValue(b));
  }

  lemma Modulo(t: nat, v: nat)
    requires t < IV_SPACE && v < IV_SPACE && (t == 2 * v || t + IV_SPACE == 2 * v)
    ensures t == 2 * v % IV_SPACE
  {
  }

  /** The first byte, put in its place, and the rest. */
  lemma {:induction false} FrontValue(s: Bytes)
    requires s != []
    ensures BigValue(s) == ByteVal(s[0]) * Pow256(|s| - 1) + BigValue(s[1..])
    decreases |s|
  {
    hide ByteVal;
    var n := |s| - 1;
    if n == 0 {
      assert BigValue(s) == 256 * BigValue(s[..0]) + ByteVal(s[0]) && Pow256(0) == 1;
    } else {
      FrontValue(s[..n]);
      assert s[1..][..n - 1] == s[..n][1..];
      assert BigValue(s[1..]) == 256 * BigValue(s[..n][1..]) + ByteVal(s[n]);
      PowStep(n - 1);
      Scale(BigValue(s[..n][1..]), Pow256(n - 1), ByteVal(s[0]));
      Commute(Pow256(n), ByteVal(s[0]));
      Commute(Pow256(n - 1), ByteVal(s[0]));
    }
  }

  lemma Commute(a: nat, b: nat)
    ensures a * b == b * a
  {
  }

  lemma TopBit(b: Block)
    ensures BigValue(b) >= IV_SPACE / 2 <==> ByteVal(b[0]) >= 128
  {
    hide ByteVal, BigValue, Pow256;
    FrontValue(b);
    BigValueBound(b[1..]);
    IvSpace();
    PowStep(15);
    Between(ByteVal(b[0]), Pow256(15), BigValue(b[1..]));
  }

  lemma Between(v: nat, p: nat, rest: nat)
    requires rest < p
    ensures v * p + rest >= 128 * p <==> v >= 128
  {
    if v >= 128 {
      AtLeast(v, 128, p);
    } else {
      AtLeast(128, v + 1, p);
      assert (v + 1) * p == v * p + p;
    }
  }

  lemma AtLeast(a: nat, b: nat, p: nat)
    requires a >= b
    ensures a * p >= b * p
  {
  }

  // ---------------------------------------------------------------- nothing is lost

  /** The last byte of a double tells the bit that left on the other side. */
  lemma LastByteTells(x: bv8, top: bv8, y: bv8, other: bv8)
    requires ShiftLast(x, top) == ShiftLast(y, other)
    ensures (TopSet(top) <==> TopSet(other)) && x << 1 == y << 1
  {
  }

  lemma NextByteTells(x: bv8, right: bv8, y: bv8, other: bv8)
    requires ShiftByte(x, right) == ShiftByte(y, other)
    ensures (TopSet(right) <==> TopSet(other)) && x << 1 == y << 1
  {
  }

  lemma ByteFrom(x: bv8, y: bv8)
    requires (TopSet(x) <==> TopSet(y)) && x << 1 == y << 1
    ensures x == y
  {
  }

  lemma DoubledTop(b: Block, c: Block, i: nat)
    requires Double(b) == Double(c) && i < 16
    ensures TopSet(b[i]) <==> TopSet(c[i])
  {
    hide ShiftByte, ShiftLast, TopSet;
    if i == 0 {
      LastByteTells(b[15], b[0], c[15], c[0]);
    } else {
      assert Double(b)[i - 1] == Double(c)[i - 1];
      NextByteTells(b[i - 1], b[i], c[i - 1], c[i]);
    }
  }

  lemma DoubledLow(b: Block, c: Block, i: nat)
    requires Double(b) == Double(c) && i < 16
    ensures b[i] << 1 == c[i] << 1
  {
    hide ShiftByte, ShiftLast, TopSet;
    if i == 15 {
      LastByteTells(b[15], b[0], c[15], c[0]);
    } else {
      assert Double(b)[i] == Double(c)[i];
      NextByteTells(b[i], b[i + 1], c[i], c[i + 1]);
    }
  }

  lemma DoubledByte(b: Block, c: Block, i: nat)
    requires Double(b) == Double(c) && i < 16
    ensures b[i] == c[i]
  {
    hide TopSet, Double;
    DoubledTop(b, c, i);
    DoubledLow(b, c, i);
    ByteFrom(b[i], c[i]);
  }

  /** Different blocks have different doubles. */
  lemma DoubleInjective(b: Block, c: Block)
    ensures Double(b) == Double(c) <==> b == c
  {
    hide Double;
    if Double(b) == Double(c) {
      forall i | 0 <= i < 16
        ensures b[i] == c[i]
      {
        DoubledByte(b, c, i);
      }
    }
  }

  lemma {:induction false} DoubledInjective(b: Block, c: Block, n: nat)
    ensures Doubled(b, n) == Doubled(c, n) <==> b == c
    decreases n
  {
    hide Double;
    if n > 0 {
      DoubleInjective(b, c);
      DoubledInjective(Double(b), Double(c), n - 1);
    }
  }

  /** What comes in on the right of a byte, and of the last byte. */
  function Low(y: bv8): bv8 {
    if TopSet(y) then 1 else 0
  }

  function Wrap(y: bv8): bv8 {
    if TopSet(y) then 0x87 else 0
  }

  lemma ShiftParts(x: bv8, y: bv8)
    ensures ShiftByte(x, y) == XorByte(Up(x), Low(y)) && ShiftLast(x, y) == XorByte(Up(x), Wrap(y))
  {
    if TopSet(y) {
      assert y >> 7 == 1;
      LowBitFree(x);
    } else {
      assert y >> 7 == 0;
    }
  }

  lemma LowBitFree(x: bv8)
    ensures (x << 1) | 1 == (x << 1) ^ 1
  {
  }

  lemma UpAdds(x: bv8, u: bv8)
    ensures Up(XorByte(x, u)) == XorByte(Up(x), Up(u))
  {
  }

  lemma TopAdds(y: bv8, v: bv8)
    ensures TopSet(XorByte(y, v)) <==> TopSet(y) != TopSet(v)
  {
  }

  lemma LowAdds(y: bv8, v: bv8)
    ensures Low(XorByte(y, v)) == XorByte(Low(y), Low(v)) && Wrap(XorByte(y, v)) == XorByte(Wrap(y), Wrap(v))
  {
    hide TopSet;
    TopAdds(y, v);
  }

  lemma Crossed(a: bv8, b: bv8, c: bv8, d: bv8)
    ensures XorByte(XorByte(a, b), XorByte(c, d)) == XorByte(XorByte(a, c), XorByte(b, d))
  {
    hide XorByte;
    ByteAssoc(a, b, XorByte(c, d));
    ByteAssoc(b, c, d);
    ByteComm(b, c);
    ByteAssoc(c, b, d);
    ByteAssoc(a, c, XorByte(b, d));
  }

  lemma ByteAssoc(a: bv8, b: bv8, c: bv8)
    ensures XorByte(XorByte(a, b), c) == XorByte(a, XorByte(b, c))
  {
  }

  lemma ByteComm(a: bv8, b: bv8)
    ensures XorByte(a, b) == XorByte(b, a)
  {
  }

  lemma ShiftAdds(x: bv8, y: bv8, u: bv8, v: bv8)
    ensures ShiftByte(XorByte(x, u), XorByte(y, v)) == XorByte(ShiftByte(x, y), ShiftByte(u, v))
    ensures ShiftLast(XorByte(x, u), XorByte(y, v)) == XorByte(ShiftLast(x, y), ShiftLast(u, v))
  {
    hide *;
    ShiftParts(XorByte(x, u), XorByte(y, v));
    ShiftParts(x, y);
    ShiftParts(u, v);
    UpAdds(x, u);
    LowAdds(y, v);
    Crossed(Up(x), Up(u), Low(y), Low(v));
    Crossed(Up(x), Up(u), Wrap(y), Wrap(v));
  }

  /** The double of a sum is the sum of the doubles. */
  lemma DoubleAdds(b: Block, c: Block)
    ensures Double(XorBlock(b, c)) == XorBlock(Double(b), Double(c))
  {
    hide ShiftByte, ShiftLast, XorByte;
    var l, r := Double(XorBlock(b, c)), XorBlock(Double(b), Double(c));
    forall i | 0 <= i < 16
      ensures l[i] == r[i]
    {
      if i < 15 {
        ShiftAdds(b[i], b[i + 1], c[i], c[i + 1]);
      } else {
        ShiftAdds(b[15], b[0], c[15], c[0]);
      }
    }
  }

  lemma SelfShift(x: bv8, right: bv8)
    requires ShiftByte(x, right) == x && !TopSet(right)
    ensures x == 0
  {
  }

  lemma SelfLast(x: bv8, top: bv8)
    requires ShiftLast(x, top) == x
    ensures if TopSet(top) then x == 0x7D else x == 0
  {
  }

  lemma ZeroOnTheRight(e: Block, i: nat)
    requires Double(e) == e && i <= 15
    ensures !TopSet(e[i]) && (i < 15 ==> e[i] == 0)
    decreases 15 - i
  {
    hide ShiftByte, ShiftLast;
    if i == 15 {
      SelfLast(e[15], e[0]);
    } else {
      ZeroOnTheRight(e, i + 1);
      assert Double(e)[i] == ShiftByte(e[i], e[i + 1]);
      SelfShift(e[i], e[i + 1]);
    }
  }

  /** Only zero is its own double. */
  lemma OnlyZeroIsItsDouble(e: Block)
    requires Double(e) == e
    ensures e == ZERO
  {
    hide ShiftByte, ShiftLast;
    ZeroOnTheRight(e, 0);
    SelfLast(e[15], e[0]);
    forall i | 0 <= i < 15
      ensures e[i] == 0
    {
      ZeroOnTheRight(e, i);
    }
  }

  lemma SameMeansZero(b: Block, c: Block)
    ensures XorBlock(b, c) == ZERO <==> b == c
  {
    XorSelf(c);
    XorComm(b, c);
    XorInjective(c, b, c);
  }

  lemma XorSelf(b: Block)
    ensures XorBlock(b, b) == ZERO
  {
  }

  /** Different blocks have different triples, a triple being the double and the block added. */
  lemma TripleInjective(b: Block, c: Block)
    ensures XorBlock(Double(b), b) == XorBlock(Double(c), c) <==> b == c
  {
    hide Double, XorBlock, ZERO;
    if XorBlock(Double(b), b) == XorBlock(Double(c), c) {
      var e := XorBlock(b, c);
      DoubleAdds(b, c);
      Regrouped(Double(b), b, Double(c), c);
      SameMeansZero(Double(e), e);
      OnlyZeroIsItsDouble(e);
      SameMeansZero(b, c);
    }
  }

  lemma Regrouped(a: Block, b: Block, c: Block, d: Block)
    requires XorBlock(a, b) == XorBlock(c, d)
    ensures XorBlock(XorBlock(a, c), XorBlock(b, d)) == ZERO
  {
    hide XorBlock, ZERO;
    calc {
      XorBlock(XorBlock(a, c), XorBlock(b, d));
      { XorAssoc(a, c, XorBlock(b, d)); XorComm(c, XorBlock(b, d)); XorAssoc(b, d, c); XorComm(d, c); }
      XorBlock(a, XorBlock(b, XorBlock(c, d)));
      { XorAssoc(a, b, XorBlock(c, d)); }
      XorBlock(XorBlock(a, b), XorBlock(c, d));
      { XorSelf(XorBlock(c, d)); }
      ZERO;
    }
  }
}
