/** The 16-byte packet counter as a little-endian number, and the loops that move it. */
module Iv {
  import opened Numbers
  import opened Blocks

  function ByteVal(b: bv8): (n: nat)
    ensures n < 256
  {
    b as int
  }

  // Unsigned bytes wrap around.
  function Next(b: bv8): bv8 {
    b + 1
  }

  function Previous(b: bv8): bv8 {
    b - 1
  }

  /** The byte with value `n`. */
  function ToByte(n: nat): bv8
    requires n < 256
  {
    if n == 0 then 0 else Next(ToByte(n - 1))
  }

  /** The number a little-endian byte string stands for. */
  function Value(s: Bytes): nat {
    if s == [] then 0 else ByteVal(s[0]) + 256 * Value(s[1..])
  }

  /** The low `len` bytes of `n`, little-endian. */
  function ToBytes(n: nat, len: nat): (s: Bytes)
    ensures |s| == len
  {
    if len == 0 then [] else [ToByte(n % 256)] + ToBytes(n / 256, len - 1)
  }

  const IV_SPACE := 0x1_0000_0000_0000_0000_0000_0000_0000_0000

  lemma IvSpace()
    ensures Pow256(16) == IV_SPACE
  {
    assert Pow256(4) == 0x1_0000_0000;
    assert Pow256(8) == 0x1_0000_0000_0000_0000;
    assert Pow256(12) == 0x1_0000_0000_0000_0000_0000_0000;
  }

  lemma SameByte(a: bv8, b: bv8)
    requires ByteVal(a) == ByteVal(b)
    ensures a == b
  {
  }

  lemma {:induction false} ValOfToByte(n: nat)
    requires n < 256
    ensures ByteVal(ToByte(n)) == n
  {
    hide ByteVal, Next;
    if n == 0 {
      NextValue(0);
    } else {
      ValOfToByte(n - 1);
      NextValue(ToByte(n - 1));
    }
  }

  lemma ToByteOfVal(b: bv8)
    ensures ToByte(ByteVal(b)) == b
  {
    ValOfToByte(ByteVal(b));
    SameByte(ToByte(ByteVal(b)), b);
  }

  lemma NextValue(b: bv8)
    ensures ByteVal(Next(b)) == if ByteVal(b) == 255 then 0 else ByteVal(b) + 1
    ensures Next(b) == 0 <==> ByteVal(b) == 255
    ensures ByteVal(0) == 0
  {
  }

  lemma PreviousValue(b: bv8)
    ensures ByteVal(Previous(b)) == if b == 0 then 255 else ByteVal(b) - 1
    ensures b == 0 <==> ByteVal(b) == 0
    ensures b == 0 ==> Previous(b) == 0xFF
  {
  }

  lemma {:induction false} ValueBound(s: Bytes)
    ensures Value(s) < Pow256(|s|)
  {
    hide ByteVal, Next, Previous;
    if s != [] {
      ValueBound(s[1..]);
    }
  }

  lemma {:induction false} ValueOfBytes(n: nat, len: nat)
    requires n < Pow256(len)
    ensures Value(ToBytes(n, len)) == n
  {
    hide ByteVal, ToByte, Next, Previous;
    if len > 0 {
      ValOfToByte(n % 256);
      ValueOfBytes(n / 256, len - 1);
      assert ToBytes(n, len)[1..] == ToBytes(n / 256, len - 1);
    }
  }

  lemma {:induction false} BytesOfValue(s: Bytes)
    ensures ToBytes(Value(s), |s|) == s
  {
    hide ByteVal, ToByte, Next, Previous;
    if s != [] {
      ToByteOfVal(s[0]);
      BytesOfValue(s[1..]);
      assert Value(s) / 256 == Value(s[1..]) && Value(s) % 256 == ByteVal(s[0]);
    }
  }

  /** Byte strings of one length and numbers below 256^length correspond one to one. */
  lemma ValueInjective(s: Bytes, t: Bytes)
    requires |s| == |t| && Value(s) == Value(t)
    ensures s == t
  {
    BytesOfValue(s);
    BytesOfValue(t);
  }

  // ---------------------------------------------------------------- increment and decrement

  ghost function Increment(s: Bytes): (r: Bytes)
    ensures |r| == |s|
  {
    if s == [] then [] else if Next(s[0]) == 0 then [0] + Increment(s[1..]) else [Next(s[0])] + s[1..]
  }

  ghost function Decrement(s: Bytes): (r: Bytes)
    ensures |r| == |s|
  {
    if s == [] then [] else if s[0] == 0 then [Previous(s[0])] + Decrement(s[1..]) else [Previous(s[0])] + s[1..]
  }

  // `v` counts modulo `p`; both stay below it.
  ghost function Wrap(v: nat, p: nat): nat
    requires v < 2 * p
  {
    if v >= p then v - p else v
  }

  lemma {:induction false} IncrementValue(s: Bytes)
    ensures Value(s) < Pow256(|s|) && Value(Increment(s)) == Wrap(Value(s) + 1, Pow256(|s|))
  {
    hide ByteVal, Next, Previous;
    ValueBound(s);
    if s != [] {
      NextValue(s[0]);
      var t := s[1..];
      ValueBound(t);
      if Next(s[0]) == 0 {
        IncrementValue(t);
        assert Increment(s)[1..] == Increment(t);
      } else {
        assert Increment(s)[1..] == t;
      }
    }
  }

  lemma {:induction false} DecrementValue(s: Bytes)
    ensures Value(Decrement(s)) == if Value(s) == 0 then Pow256(|s|) - 1 else Value(s) - 1
  {
    hide ByteVal, Next, Previous;
    if s != [] {
      PreviousValue(s[0]);
      var t := s[1..];
      if s[0] == 0 {
        DecrementValue(t);
        assert Decrement(s)[1..] == Decrement(t);
      } else {
        assert Decrement(s)[1..] == t;
      }
    }
  }

  lemma IncrementStep(before: Bytes, rest: Bytes)
    ensures |Increment(rest)| == |rest| && |Increment([])| == 0
    ensures rest != [] ==> before + Increment(rest) == if Next(rest[0]) == 0
              then (before + [0]) + Increment(rest[1..]) else (before + [Next(rest[0])]) + rest[1..]
  {
    hide Next;
  }

  lemma DecrementStep(before: Bytes, rest: Bytes)
    ensures |Decrement(rest)| == |rest| && |Decrement([])| == 0
    ensures rest != [] ==> before + Decrement(rest) == if rest[0] == 0
              then (before + [0xFF]) + Decrement(rest[1..]) else (before + [Previous(rest[0])]) + rest[1..]
  {
    if rest != [] {
      PreviousValue(rest[0]);
    }
    hide Previous;
  }

  /** Adds one to the counter, modulo its range. */
  method AdvanceIV(iv: array<bv8>)
    modifies iv
    ensures Value(old(iv[..])) < Pow256(iv.Length)
    ensures Value(iv[..]) == Wrap(Value(old(iv[..])) + 1, Pow256(iv.Length))
  {
    hide ByteVal, Next, Previous, Increment, Value, Wrap, Pow256;
    ghost var was := iv[..];
    IncrementValue(was);
    var i := 0;
    assert iv[0..] == iv[..] && iv[..0] == [];
    while i < iv.Length
      invariant 0 <= i <= iv.Length
      invariant iv[..i] + Increment(iv[i..]) == Increment(was)
    {
      ghost var before, rest := iv[..i], iv[i..];
      IncrementStep(before, rest);
      iv[i] := Next(iv[i]);
      assert iv[..i + 1] == before + [Next(rest[0])] && iv[i + 1..] == rest[1..];
      if iv[i] != 0 {
        assert iv[..] == iv[..i + 1] + iv[i + 1..];
        return;
      }
      i := i + 1;
    }
    IncrementStep([], []);
    assert iv[..] == iv[..i] + Increment(iv[i..]);
  }

  /** Adds 256 to the counter, modulo its range: the low byte stays. */
  method AdvanceIVHighBytes(iv: array<bv8>)
    requires iv.Length > 1
    modifies iv
    ensures Value(old(iv[..])) < Pow256(iv.Length) && Pow256(iv.Length) >= 256
    ensures Value(iv[..]) == Wrap(Value(old(iv[..])) + 256, Pow256(iv.Length))
    ensures iv[0] == old(iv[0])
  {
    hide ByteVal, Next, Previous, Increment, Value, Wrap, Pow256;
    ghost var low, was := iv[0], iv[1..];
    HighValue(iv[..]);
    var i := 1;
    assert iv[..1] == [low] && iv[..][1..] == was;
    while i < iv.Length
      invariant 1 <= i <= iv.Length
      invariant iv[..i] + Increment(iv[i..]) == [low] + Increment(was)
    {
      ghost var before, rest := iv[..i], iv[i..];
      IncrementStep(before, rest);
      iv[i] := Next(iv[i]);
      assert iv[..i + 1] == before + [Next(rest[0])] && iv[i + 1..] == rest[1..];
      if iv[i] != 0 {
        assert iv[..] == iv[..i + 1] + iv[i + 1..];
        return;
      }
      i := i + 1;
    }
    IncrementStep([], []);
    assert iv[..] == iv[..i] + Increment(iv[i..]);
  }

  lemma HighValue(s: Bytes)
    requires |s| > 1
    ensures Value(s) < Pow256(|s|) && Pow256(|s|) >= 256
    ensures Value([s[0]] + Increment(s[1..])) == Wrap(Value(s) + 256, Pow256(|s|))
    ensures ([s[0]] + Increment(s[1..]))[0] == s[0]
  {
    hide ByteVal, Next, Increment, Wrap, Value, Pow256;
    var t := s[1..];
    IncrementStep([], t);
    var r := [s[0]] + Increment(t);
    assert r[1..] == Increment(t);
    HighValueOf(s, r);
  }

  lemma HighValueOf(s: Bytes, r: Bytes)
    requires |r| == |s| > 1 && r[0] == s[0] && r[1..] == Increment(s[1..])
    ensures Value(s) < Pow256(|s|) && Pow256(|s|) >= 256
    ensures Value(r) == Wrap(Value(s) + 256, Pow256(|s|))
  {
    hide ByteVal, Next, Increment, Wrap, Value, Pow256;
    Unfold(s);
    Unfold(r);
    IncrementValue(s[1..]);
    HighCarry(ByteVal(s[0]), Value(s[1..]), Pow256(|s[1..]|));
  }

  lemma Unfold(s: Bytes)
    requires s != []
    ensures Value(s) == ByteVal(s[0]) + 256 * Value(s[1..]) && ByteVal(s[0]) < 256
    ensures Pow256(|s|) == 256 * Pow256(|s[1..]|) && Pow256(|s[1..]|) > 0
  {
  }

  lemma HighCarry(low: nat, v: nat, p: nat)
    requires low < 256 && v < p
    ensures low + 256 * v < 256 * p && low + 256 * Wrap(v + 1, p) == Wrap(low + 256 * v + 256, 256 * p)
  {
  }

  /** Subtracts one from the counter, modulo its range. */
  method BackupIV(iv: array<bv8>)
    modifies iv
    ensures Value(iv[..]) == if Value(old(iv[..])) == 0 then Pow256(iv.Length) - 1 else Value(old(iv[..])) - 1
  {
    hide ByteVal, Next, Previous, Decrement, Pow256;
    ghost var was := iv[..];
    DecrementValue(was);
    var i := 0;
    assert iv[0..] == iv[..] && iv[..0] == [];
    while i < iv.Length
      invariant 0 <= i <= iv.Length
      invariant iv[..i] + Decrement(iv[i..]) == Decrement(was)
    {
      ghost var before, rest := iv[..i], iv[i..];
      DecrementStep(before, rest);
      if iv[i] == 0 {
        iv[i] := 0xFF;
        assert iv[..i + 1] == before + [0xFF] && iv[i + 1..] == rest[1..];
      } else {
        iv[i] := Previous(iv[i]);
        assert iv[..i + 1] == before + [Previous(rest[0])] && iv[i + 1..] == rest[1..];
        assert iv[..] == iv[..i + 1] + iv[i + 1..];
        return;
      }
      i := i + 1;
    }
    DecrementStep([], []);
    assert iv[..] == iv[..i] + Decrement(iv[i..]);
  }
}
