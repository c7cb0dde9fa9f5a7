/** Mumble's variable-length integers: every int64 survives encoding, whatever bytes follow. A test of the leading bits of
    a byte is a range test. */
module Varint {
  import opened Numbers

  const MIN_INT64: Int64 := -0x8000_0000_0000_0000
  const MAX_LEN := 10

  // ---------------------------------------------------------------- conversions that may wrap

  function ToInt64(v: nat): Int64
    requires v < 0x1_0000_0000_0000_0000
  {
    if v < 0x8000_0000_0000_0000 then v else v - 0x1_0000_0000_0000_0000
  }

  function ToUint64(v: Int64): nat {
    if v < 0 then v + 0x1_0000_0000_0000_0000 else v
  }

  /** Negation of an int64: the smallest number is its own negative. */
  function Negate(v: Int64): Int64 {
    if v == MIN_INT64 then v else -v
  }

  // ---------------------------------------------------------------- the code words

  function Encoded(v: Int64): (s: seq<Byte>)
    ensures 1 <= |s| <= MAX_LEN && (v >= 0 ==> |s| < MAX_LEN)
    decreases v < 0
  {
    if -4 <= v <= -1 then [0xFC + (-1 - v)]
    else if v == MIN_INT64 then [0xF8, 0xF4] + BigEndian(ToUint64(v), 8)
    else if v < 0 then [0xF8] + Encoded(-v)
    else if v <= 0x7F then [v]
    else if v <= 0x3FFF then [0x80 + v / 0x100, v % 0x100]
    else if v <= 0x1F_FFFF then [0xC0 + v / 0x1_0000, v / 0x100 % 0x100, v % 0x100]
    else if v <= 0xFFF_FFFF then [0xE0 + v / 0x100_0000, v / 0x1_0000 % 0x100, v / 0x100 % 0x100, v % 0x100]
    else if v <= 0x7FFF_FFFF then [0xF0] + BigEndian(v, 4)
    else [0xF4] + BigEndian(v, 8)
  }

  /** A number and how many bytes it took; (0, 0) if the bytes do not start with a number. */
  function Decode(b: seq<Byte>): (r: (Int64, nat))
    ensures r.1 <= |b| && (r.1 == 0 ==> r.0 == 0)
    decreases |b|
  {
    if |b| == 0 then (0, 0)
    else
      var first: int := b[0];
      if first < 0x80 then (first, 1)
      else if first < 0xC0 && |b| >= 2 then (first % 0x40 * 0x100 + b[1] as int, 2)
      else if 0xC0 <= first < 0xE0 && |b| >= 3 then (first % 0x20 * 0x1_0000 + b[1] as int * 0x100 + b[2] as int, 3)
      else if 0xE0 <= first < 0xF0 && |b| >= 4 then
        (first % 0x10 * 0x100_0000 + b[1] as int * 0x1_0000 + b[2] as int * 0x100 + b[3] as int, 4)
      else if 0xF0 <= first < 0xF4 && |b| >= 5 then (BigEndianAt(b[1..5]), 5)
      else if 0xF4 <= first < 0xF8 && |b| >= 9 then (ToInt64(BigEndianAt(b[1..9])), 9)
      else if 0xF8 <= first < 0xFC then
        var (v, n) := Decode(b[1..]);
        if n > 0 then (Negate(v), n + 1) else (0, 0)
      else if first >= 0xFC then (-1 - first % 4, 1)
      else (0, 0)
  }

  /** FromBigEndian of at most 8 bytes, with its bound. */
  function BigEndianAt(s: seq<Byte>): (v: nat)
    requires |s| == 4 || |s| == 8
    ensures v == FromBigEndian(s)
    ensures |s| == 4 ==> v < 0x1_0000_0000
    ensures v < 0x1_0000_0000_0000_0000
  {
    FromBigEndianBound(s);
    Powers();
    FromBigEndian(s)
  }

  // ---------------------------------------------------------------- round trip

  lemma DecodeOne(v: Int64, rest: seq<Byte>)
    requires 0 <= v <= 0x7F
    ensures Decode(Encoded(v) + rest) == (v, |Encoded(v)|)
  {
    hide BigEndian, BigEndianAt;
  }

  lemma DecodeTwo(v: Int64, rest: seq<Byte>)
    requires 0x7F < v <= 0x3FFF
    ensures Decode(Encoded(v) + rest) == (v, |Encoded(v)|)
  {
    hide BigEndian, BigEndianAt;
    var s := Encoded(v) + rest;
    assert s[0] == 0x80 + v / 0x100 && s[1] == v % 0x100;
  }

  lemma DecodeThree(v: Int64, rest: seq<Byte>)
    requires 0x3FFF < v <= 0x1F_FFFF
    ensures Decode(Encoded(v) + rest) == (v, |Encoded(v)|)
  {
    hide BigEndian, BigEndianAt;
    var s := Encoded(v) + rest;
    ThreeDigits(v);
    assert s[0] == 0xC0 + v / 0x1_0000 && s[1] == v / 0x100 % 0x100 && s[2] == v % 0x100;
  }

  lemma ThreeDigits(v: nat)
    ensures v == v / 0x1_0000 * 0x1_0000 + v / 0x100 % 0x100 * 0x100 + v % 0x100
  {
  }

  lemma FourDigits(v: nat)
    ensures v == v / 0x100_0000 * 0x100_0000 + v / 0x1_0000 % 0x100 * 0x1_0000 + v / 0x100 % 0x100 * 0x100 + v % 0x100
  {
    ThreeDigits(v);
    var w := v / 0x1_0000;
    assert w == w / 0x100 * 0x100 + w % 0x100 && w / 0x100 == v / 0x100_0000;
  }

  lemma DecodeFour(v: Int64, rest: seq<Byte>)
    requires 0x1F_FFFF < v <= 0xFFF_FFFF
    ensures Decode(Encoded(v) + rest) == (v, |Encoded(v)|)
  {
    hide BigEndian, BigEndianAt;
    var s := Encoded(v) + rest;
    FourDigits(v);
    assert s[0] == 0xE0 + v / 0x100_0000 && s[1] == v / 0x1_0000 % 0x100 && s[2] == v / 0x100 % 0x100 && s[3] == v % 0x100;
    assert v / 0x100_0000 < 0x10;
  }

  lemma DecodeWide(v: Int64, rest: seq<Byte>)
    requires v > 0xFFF_FFFF
    ensures Decode(Encoded(v) + rest) == (v, |Encoded(v)|)
  {
    hide BigEndian, FromBigEndian, Pow256;
    var s := Encoded(v) + rest;
    Powers();
    if v <= 0x7FFF_FFFF {
      BigEndianBack(v, 4);
      assert s[1..5] == BigEndian(v, 4);
    } else {
      BigEndianBack(v, 8);
      assert s[1..9] == BigEndian(v, 8);
    }
  }

  lemma DecodeNatural(v: Int64, rest: seq<Byte>)
    requires v >= 0
    ensures Decode(Encoded(v) + rest) == (v, |Encoded(v)|)
  {
    hide Encoded, Decode;
    if v <= 0x7F {
      DecodeOne(v, rest);
    } else if v <= 0x3FFF {
      DecodeTwo(v, rest);
    } else if v <= 0x1F_FFFF {
      DecodeThree(v, rest);
    } else if v <= 0xFFF_FFFF {
      DecodeFour(v, rest);
    } else {
      DecodeWide(v, rest);
    }
  }

  lemma DecodeSmallest(rest: seq<Byte>)
    ensures Decode([0xF8, 0xF4] + BigEndian(ToUint64(MIN_INT64), 8) + rest) == (MIN_INT64, 10)
  {
    hide BigEndian, FromBigEndian, Pow256;
    var word := BigEndian(ToUint64(MIN_INT64), 8);
    var s := [0xF8, 0xF4] + word + rest;
    Powers();
    BigEndianBack(ToUint64(MIN_INT64), 8);
    assert s[1..] == [0xF4] + word + rest;
    assert s[1..][1..9] == word;
    assert Decode(s[1..]) == (MIN_INT64, 9);
  }

  /** Decoding an encoded number, followed by anything, gives the number and the length of its code word. */
  lemma RoundTrip(v: Int64, rest: seq<Byte>)
    ensures Decode(Encoded(v) + rest) == (v, |Encoded(v)|)
  {
    if v >= 0 {
      DecodeNatural(v, rest);
    } else if v == MIN_INT64 {
      DecodeSmallest(rest);
    } else if v < -4 {
      DecodeNatural(-v, rest);
      NegativeWord(v, rest);
    }
    hide BigEndian, FromBigEndian;
  }

  lemma NegativeWord(v: Int64, rest: seq<Byte>)
    requires MIN_INT64 < v < -4 && Decode(Encoded(-v) + rest) == (-v, |Encoded(-v)|)
    ensures Decode(Encoded(v) + rest) == (v, |Encoded(v)|)
  {
    var s := Encoded(v) + rest;
    assert Encoded(v) == [0xF8] + Encoded(-v) && s[0] == 0xF8;
    hide Encoded;
    assert s[1..] == Encoded(-v) + rest;
  }

  /** No code word is a prefix of another. */
  lemma PrefixFree(v: Int64, w: Int64, rest: seq<Byte>)
    requires Encoded(v) + rest == Encoded(w)
    ensures v == w && rest == []
  {
    RoundTrip(v, rest);
    RoundTrip(w, []);
    assert Encoded(w) + [] == Encoded(w);
  }

  // ---------------------------------------------------------------- writing into a buffer

  /** `after` is `before` with `s` written over it at `at`. */
  ghost predicate Wrote(before: seq<Byte>, after: seq<Byte>, at: nat, s: seq<Byte>) {
    at + |s| <= |before| && after == before[..at] + s + before[at + |s|..]
  }

  lemma WroteBoth(before: seq<Byte>, mid: seq<Byte>, after: seq<Byte>, at: nat, s: seq<Byte>, t: seq<Byte>)
    requires Wrote(before, mid, at, s) && Wrote(mid, after, at + |s|, t)
    ensures Wrote(before, after, at, s + t)
  {
    assert mid[at + |s| + |t|..] == before[at + |s| + |t|..];
    assert mid[..at + |s|] == before[..at] + s;
  }

  lemma WroteStart(before: seq<Byte>, after: seq<Byte>, at: nat, s: seq<Byte>)
    requires Wrote(before, after, at, s)
    ensures |after| == |before| && at + |s| <= |after| && after[..at + |s|] == before[..at] + s
  {
  }

  method PutBigEndian(b: array<Byte>, at: nat, v: nat, n: nat)
    requires at + n <= b.Length
    modifies b
    ensures Wrote(old(b[..]), b[..], at, BigEndian(v, n))
  {
    var rest, k := v, n;
    ghost var was := b[..];
    assert BigEndian(v, n) == BigEndian(v, n) + [];
    while k > 0
      invariant 0 <= k <= n
      invariant b[..at] == was[..at] && b[at + n..] == was[at + n..]
      invariant BigEndian(v, n) == BigEndian(rest, k) + b[at + k..at + n]
    {
      k := k - 1;
      b[at + k] := rest % 256;
      assert BigEndian(rest, k + 1) == BigEndian(rest / 256, k) + [b[at + k]];
      assert b[at + k..at + n] == [b[at + k]] + b[at + k + 1..at + n];
      rest := rest / 256;
    }
    assert b[..] == b[..at] + b[at..at + n] + b[at + n..];
  }

  /** A first byte, then the low `n` bytes of a number. */
  method PutMarked(b: array<Byte>, at: nat, first: Byte, v: nat, n: nat)
    requires at + 1 + n <= b.Length
    modifies b
    ensures Wrote(old(b[..]), b[..], at, [first] + BigEndian(v, n))
  {
    b[at] := first;
    ghost var mid := b[..];
    PutBigEndian(b, at + 1, v, n);
    WroteBoth(old(b[..]), mid, b[..], at, [first], BigEndian(v, n));
  }

  /** The part of EncodeInto for numbers of at most 28 bits. */
  method EncodeShort(b: array<Byte>, at: nat, v: Int64) returns (n: nat)
    requires 0 <= v <= 0xFFF_FFFF && at + |Encoded(v)| <= b.Length
    modifies b
    ensures n == |Encoded(v)| && Wrote(old(b[..]), b[..], at, Encoded(v))
  {
    hide BigEndian;
    if v <= 0x7F {
      b[at] := v;
      return 1;
    }
    if v <= 0x3FFF {
      b[at], b[at + 1] := 0x80 + v / 0x100, v % 0x100;
      return 2;
    }
    if v <= 0x1F_FFFF {
      b[at], b[at + 1], b[at + 2] := 0xC0 + v / 0x1_0000, v / 0x100 % 0x100, v % 0x100;
      return 3;
    }
    b[at], b[at + 1], b[at + 2], b[at + 3] :=
      0xE0 + v / 0x100_0000, v / 0x1_0000 % 0x100, v / 0x100 % 0x100, v % 0x100;
    return 4;
  }

  /** Writes the code word of `v` at `at`. */
  method EncodeInto(b: array<Byte>, at: nat, v: Int64) returns (n: nat)
    requires at + |Encoded(v)| <= b.Length
    modifies b
    ensures n == |Encoded(v)| && Wrote(old(b[..]), b[..], at, Encoded(v))
    decreases v < 0
  {
    hide BigEndian;
    if -4 <= v <= -1 {
      b[at] := 0xFC + (-1 - v);
      return 1;
    }
    if v < 0 {
      b[at] := 0xF8;
      assert Wrote(old(b[..]), b[..], at, [0xF8]);
      hide Wrote;
      ghost var mid := b[..];
      if v == MIN_INT64 {
        PutMarked(b, at + 1, 0xF4, ToUint64(v), 8);
        assert [0xF8] + ([0xF4] + BigEndian(ToUint64(v), 8)) == Encoded(v);
        WroteBoth(old(b[..]), mid, b[..], at, [0xF8], [0xF4] + BigEndian(ToUint64(v), 8));
        return 10;
      }
      n := EncodeInto(b, at + 1, -v);
      WroteBoth(old(b[..]), mid, b[..], at, [0xF8], Encoded(-v));
      return 1 + n;
    }
    hide Wrote;
    if v <= 0xFFF_FFFF {
      n := EncodeShort(b, at, v);
    } else if v <= 0x7FFF_FFFF {
      PutMarked(b, at, 0xF0, v, 4);
      n := 5;
    } else {
      PutMarked(b, at, 0xF4, v, 8);
      n := 9;
    }
  }

  method CopyInto(b: array<Byte>, word: array<Byte>, n: nat)
    requires n <= b.Length && n <= word.Length && b != word
    modifies b
    ensures Wrote(old(b[..]), b[..], 0, word[..n])
  {
    ghost var was := b[..];
    for k := 0 to n
      invariant forall j | 0 <= j < k :: b[j] == word[j]
      invariant forall j | k <= j < b.Length :: b[j] == was[j]
    {
      b[k] := word[k];
    }
    assert b[..n] == word[..n] && b[n..] == was[n..];
    assert b[..] == b[..n] + b[n..];
  }

  /** Writes the code word of `v` at the start of `b`, or nothing if it does not fit. */
  method Encode(b: array<Byte>, v: Int64) returns (n: nat)
    modifies b
    ensures n == if b.Length < |Encoded(v)| then 0 else |Encoded(v)|
    ensures n > 0 ==> Wrote(old(b[..]), b[..], 0, Encoded(v))
    ensures n == 0 ==> b[..] == old(b[..])
  {
    hide Encoded;
    var word := new Byte[MAX_LEN](_ => 0);
    n := EncodeInto(word, 0, v);
    assert word[..n] == Encoded(v);
    hide Wrote;
    if b.Length < n { return 0; }
    CopyInto(b, word, n);
  }
}
