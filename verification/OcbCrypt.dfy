/** The older OCB mode: nonces of 1 to 15 bytes, associated data, a tag after the ciphertext. It differs from RFC 7253
    in its initial offset and its last block; what is proved is that it inverts itself and how its offsets are made. */
module OcbCrypt {
  import opened Blocks
  import Ocb15

  datatype Result = Ok(bytes: Bytes) | BadNonce | TooShort | Unauthentic

  // ---------------------------------------------------------------- offsets

  /** Number of trailing zeros. */
  function Ntz(i: nat): nat
    requires i > 0
  {
    if i % 2 == 1 then 0 else 1 + Ntz(i / 2)
  }

  function Pow2(n: nat): nat {
    if n == 0 then 1 else 2 * Pow2(n - 1)
  }

  function OddPart(i: nat): nat
    requires i > 0
  {
    if i % 2 == 1 then i else OddPart(i / 2)
  }

  /** The power of two with that exponent divides the number, and no higher one does. */
  lemma {:induction false} NtzMeans(i: nat)
    requires i > 0
    ensures OddPart(i) % 2 == 1 && i == Pow2(Ntz(i)) * OddPart(i)
  {
    if i % 2 == 0 {
      NtzMeans(i / 2);
      Twice(Pow2(Ntz(i / 2)), OddPart(i / 2));
    }
  }

  lemma Twice(a: nat, b: nat)
    ensures 2 * (a * b) == (2 * a) * b
  {
  }

  function Mask(l: Block, i: nat): Block
    requires i > 0
  {
    Doubled(l, Ntz(i))
  }

  /** The offset at block `i`, counting blocks from 1. */
  function Offset(start: Block, l: Block, i: nat): Block {
    if i == 0 then start else XorBlock(Offset(start, l, i - 1), Mask(l, i))
  }

  /** AES of the padded nonce, its last bytes cleared. */
  function Start(k: Cipher, nonce: Bytes): Block
    requires 1 <= |nonce| <= 15
  {
    Pad(k.enc(Pad(nonce))[..|nonce|])
  }

  // ---------------------------------------------------------------- data, associated data, tag

  /** What the data loop has reached: its output, offset and checksum. */
  datatype Progress = Progress(out: Bytes, offset: Block, sum: Block)

  function SealFrom(k: Cipher, l: Block, offset: Block, sum: Block, i: nat, p: Bytes): Progress
    requires i > 0
    decreases |p|
  {
    if p == [] then Progress([], offset, sum)
    else
      var d := XorBlock(offset, Mask(l, i));
      if |p| <= BLOCK_SIZE then Progress(Xor(p, k.enc(d)), d, XorBlock(sum, Pad(p)))
      else
        var r := SealFrom(k, l, d, XorBlock(sum, p[..16]), i + 1, p[16..]);
        r.(out := XorBlock(k.enc(XorBlock(d, p[..16])), d) + r.out)
  }

  function OpenFrom(k: Cipher, l: Block, offset: Block, sum: Block, i: nat, c: Bytes): Progress
    requires i > 0
    decreases |c|
  {
    if c == [] then Progress([], offset, sum)
    else
      var d := XorBlock(offset, Mask(l, i));
      if |c| <= BLOCK_SIZE then
        var p := Xor(c, k.enc(d));
        Progress(p, d, XorBlock(sum, Pad(p)))
      else
        var x := XorBlock(k.dec(XorBlock(d, c[..16])), d);
        var r := OpenFrom(k, l, d, XorBlock(sum, x), i + 1, c[16..]);
        r.(out := x + r.out)
  }

  /** A short block of associated data, marked by 0x80. */
  function Marked(s: Bytes): Block
    requires |s| < BLOCK_SIZE
  {
    Pad(s + [0x80])
  }

  function AdSum(k: Cipher, l: Block, offset: Block, sum: Block, i: nat, ad: Bytes): Block
    requires i > 0
    decreases |ad|
  {
    if ad == [] then sum
    else
      var d := XorBlock(offset, Mask(l, i));
      var whole := |ad| >= BLOCK_SIZE;
      var block := if whole then ad[..16] else Marked(ad);
      AdSum(k, l, d, XorBlock(sum, k.enc(XorBlock(block, d))), i + 1, if whole then ad[16..] else [])
  }

  function Tag(k: Cipher, r: Progress, ad: Bytes): Block {
    XorBlock(k.enc(XorBlock(r.offset, r.sum)), AdSum(k, k.enc(ZERO), ZERO, ZERO, 1, ad))
  }

  function Encrypted(k: Cipher, nonce: Bytes, p: Bytes, ad: Bytes): Result {
    if !(1 <= |nonce| <= 15) then BadNonce
    else
      var r := SealFrom(k, k.enc(ZERO), Start(k, nonce), ZERO, 1, p);
      Ok(r.out + Tag(k, r, ad))
  }

  function Decrypted(k: Cipher, nonce: Bytes, data: Bytes, ad: Bytes): Result {
    if |data| < BLOCK_SIZE then TooShort
    else if !(1 <= |nonce| <= 15) then BadNonce
    else
      var n := |data| - BLOCK_SIZE;
      var r := OpenFrom(k, k.enc(ZERO), Start(k, nonce), ZERO, 1, data[..n]);
      if data[n..] == Tag(k, r, ad) then Ok(r.out) else Unauthentic
  }

  // ---------------------------------------------------------------- round trip

  lemma BlockBack(k: Cipher, d: Block, x: Block)
    requires k.Invertible()
    ensures XorBlock(k.dec(XorBlock(d, XorBlock(k.enc(XorBlock(d, x)), d))), d) == x
  {
    XorComm(d, XorBlock(k.enc(XorBlock(d, x)), d));
    XorCancel(k.enc(XorBlock(d, x)), d);
    XorComm(d, x);
    XorCancel(x, d);
  }

  lemma SealStep(k: Cipher, l: Block, offset: Block, sum: Block, i: nat, p: Bytes)
    requires i > 0 && |p| > BLOCK_SIZE
    ensures var d := XorBlock(offset, Mask(l, i));
      var r := SealFrom(k, l, d, XorBlock(sum, p[..16]), i + 1, p[16..]);
      SealFrom(k, l, offset, sum, i, p) == r.(out := XorBlock(k.enc(XorBlock(d, p[..16])), d) + r.out)
  {
    hide XorBlock, Mask;
  }

  lemma OpenStep(k: Cipher, l: Block, offset: Block, sum: Block, i: nat, head: Block, c: Bytes)
    requires i > 0 && c != []
    ensures var d := XorBlock(offset, Mask(l, i));
      var x := XorBlock(k.dec(XorBlock(d, head)), d);
      var r := OpenFrom(k, l, d, XorBlock(sum, x), i + 1, c);
      OpenFrom(k, l, offset, sum, i, head + c) == r.(out := x + r.out)
  {
    hide XorBlock, Mask;
    assert (head + c)[..16] == head && (head + c)[16..] == c;
  }

  /** Opening the sealed blocks gives the plaintext back, with the same offset and checksum. */
  lemma {:induction false} OpenAfterSeal(k: Cipher, l: Block, offset: Block, sum: Block, i: nat, p: Bytes)
    requires k.Invertible() && i > 0
    ensures var s := SealFrom(k, l, offset, sum, i, p);
      |s.out| == |p| && OpenFrom(k, l, offset, sum, i, s.out) == s.(out := p)
    decreases |p|
  {
    hide XorBlock, Mask, Xor;
    var d := XorBlock(offset, Mask(l, i));
    if |p| > BLOCK_SIZE {
      var x, q := p[..16], p[16..];
      OpenAfterSeal(k, l, d, XorBlock(sum, x), i + 1, q);
      SealStep(k, l, offset, sum, i, p);
      BlockBack(k, d, x);
      OpenStep(k, l, offset, sum, i, XorBlock(k.enc(XorBlock(d, x)), d), SealFrom(k, l, d, XorBlock(sum, x), i + 1, q).out);
      assert p == x + q;
    } else if p != [] {
      XorCancel(p, k.enc(d));
    }
  }

  /** Decrypting what was encrypted returns it, for every nonce of 1 to 15 bytes and all associated data; every other
      nonce is refused on both sides. */
  lemma RoundTrip(k: Cipher, nonce: Bytes, p: Bytes, ad: Bytes)
    requires k.Invertible()
    ensures var e := Encrypted(k, nonce, p, ad);
      if 1 <= |nonce| <= 15 then e.Ok? && |e.bytes| == |p| + 16 && Decrypted(k, nonce, e.bytes, ad) == Ok(p)
      else e == BadNonce && forall c :: Decrypted(k, nonce, c, ad) in {BadNonce, TooShort}
  {
    if 1 <= |nonce| <= 15 {
      hide SealFrom, OpenFrom, Start, AdSum, XorBlock;
      var s := SealFrom(k, k.enc(ZERO), Start(k, nonce), ZERO, 1, p);
      OpenAfterSeal(k, k.enc(ZERO), Start(k, nonce), ZERO, 1, p);
      var data := s.out + Tag(k, s, ad);
      assert data[..|p|] == s.out && data[|p|..] == Tag(k, s, ad);
    }
  }

  /** The right ciphertext under any other tag is refused. */
  lemma WrongTag(k: Cipher, nonce: Bytes, p: Bytes, ad: Bytes, tag: Block)
    requires k.Invertible() && 1 <= |nonce| <= 15
    ensures var s := SealFrom(k, k.enc(ZERO), Start(k, nonce), ZERO, 1, p);
      tag != Tag(k, s, ad) ==> Decrypted(k, nonce, s.out + tag, ad) == Unauthentic
  {
    hide SealFrom, OpenFrom, Start, AdSum, XorBlock;
    var s := SealFrom(k, k.enc(ZERO), Start(k, nonce), ZERO, 1, p);
    OpenAfterSeal(k, k.enc(ZERO), Start(k, nonce), ZERO, 1, p);
    var data := s.out + tag;
    assert data[..|p|] == s.out && data[|p|..] == tag;
  }

  // ---------------------------------------------------------------- offsets as Gray codes

  /** Bitwise exclusive or of numbers. */
  function XorNat(a: nat, b: nat): nat
    decreases a + b
  {
    if a == 0 && b == 0 then 0 else (a % 2 + b % 2) % 2 + 2 * XorNat(a / 2, b / 2)
  }

  function Gray(i: nat): nat {
    XorNat(i, i / 2)
  }

  /** The sum of the j-th doublings of `l` over the bits j of `bits`. */
  function Combine(l: Block, bits: nat): Block
    decreases bits
  {
    if bits == 0 then ZERO
    else XorBlock(if bits % 2 == 1 then l else ZERO, Combine(Double(l), bits / 2))
  }

  lemma GrayHalves(i: nat)
    ensures Gray(i) / 2 == Gray(i / 2) && Gray(i) % 2 == (i % 2 + i / 2 % 2) % 2
  {
  }

  lemma CombineStep(l: Block, bits: nat)
    ensures Combine(l, bits) == XorBlock(if bits % 2 == 1 then l else ZERO, Combine(Double(l), bits / 2))
  {
    if bits == 0 { XorZero(ZERO); }
    hide Double, XorBlock;
  }

  /** Stepping from i - 1 to i changes the combination by one doubling: that of the trailing zeros of i. */
  lemma {:induction false} GrayStep(l: Block, i: nat)
    requires i > 0
    ensures Combine(l, Gray(i)) == XorBlock(Combine(l, Gray(i - 1)), Mask(l, i))
    decreases i
  {
    hide Double, XorBlock, Gray, Combine;
    GrayHalves(i);
    GrayHalves(i - 1);
    CombineStep(l, Gray(i));
    CombineStep(l, Gray(i - 1));
    var rest := Combine(Double(l), Gray((i - 1) / 2));
    if i % 2 == 1 {
      assert i / 2 == (i - 1) / 2;
      XorAssoc(ZERO, rest, l);
      XorComm(rest, l);
      XorBoth(l, rest);
    } else {
      assert (i - 1) / 2 == i / 2 - 1;
      GrayStep(Double(l), i / 2);
      var low := if Gray(i) % 2 == 1 then l else ZERO;
      XorAssoc(low, rest, Mask(Double(l), i / 2));
    }
  }

  lemma XorBoth(l: Block, r: Block)
    ensures XorBlock(XorBlock(ZERO, r), l) == XorBlock(l, r)
    ensures XorBlock(XorBlock(l, r), l) == XorBlock(ZERO, r)
  {
  }

  lemma NoDoubling(l: Block)
    ensures Combine(l, Gray(0)) == ZERO
  {
    assert Gray(0) == 0;
  }

  /** The offset at block i is the initial one with the Gray-code combination i ^ (i >> 1) of doublings added. */
  lemma {:induction false} OffsetIsGray(start: Block, l: Block, i: nat)
    ensures Offset(start, l, i) == XorBlock(start, Combine(l, Gray(i)))
  {
    hide XorBlock, Gray, Combine, Mask;
    if i == 0 {
      NoDoubling(l);
      XorZero(start);
    } else {
      OffsetIsGray(start, l, i - 1);
      GrayStep(l, i);
      XorAssoc(start, Combine(l, Gray(i - 1)), Mask(l, i));
    }
  }

  /** The data loop ends on the offset of its last block. */
  lemma {:induction false} LastOffsetOf(k: Cipher, l: Block, start: Block, sum: Block, i: nat, p: Bytes)
    requires i > 0
    ensures SealFrom(k, l, Offset(start, l, i - 1), sum, i, p).offset == Offset(start, l, i - 1 + (|p| + 15) / 16)
    decreases |p|
  {
    hide XorBlock, Mask, Xor;
    if |p| > BLOCK_SIZE {
      LastOffsetOf(k, l, start, XorBlock(sum, p[..16]), i + 1, p[16..]);
      assert Offset(start, l, i) == XorBlock(Offset(start, l, i - 1), Mask(l, i));
    }
  }

  // ---------------------------------------------------------------- the source's loops

  method DoubleBlock(b: Block) returns (r: Block)
    ensures r == Double(b)
  {
    hide ShiftByte, ShiftLast;
    var out := new bv8[BLOCK_SIZE](_ => 0);
    for i := 0 to 15
      invariant forall j | 0 <= j < i :: out[j] == ShiftByte(b[j], b[j + 1])
    {
      out[i] := ShiftByte(b[i], b[i + 1]);
    }
    out[15] := ShiftLast(b[15], b[0]);
    r := out[..];
    Ocb15.IsDouble(b, r);
  }

  method TrailingZeros(i: nat) returns (n: nat)
    requires i > 0
    ensures n == Ntz(i)
  {
    var v := i;
    n := 0;
    while v % 2 == 0
      invariant v > 0 && n + Ntz(v) == Ntz(i)
      decreases v
    {
      NtzHalf(v);
      v, n := v / 2, n + 1;
    }
  }

  lemma NtzHalf(v: nat)
    requires v > 0 && v % 2 == 0
    ensures v / 2 > 0 && Ntz(v) == 1 + Ntz(v / 2)
  {
  }

  method Lntz(lstar: Block, i: nat) returns (l: Block)
    requires i > 0
    ensures l == Mask(lstar, i)
  {
    hide Doubled, Double, Ntz;
    var n := TrailingZeros(i);
    l := lstar;
    for j := 0 to n
      invariant Doubled(l, n - j) == Doubled(lstar, n)
    {
      DoubledStep(l, n - j);
      l := DoubleBlock(l);
    }
    DoubledStep(l, 0);
  }

  /** Adds `s` to the front of a block, in place. */
  method AddTo(block: array<bv8>, s: Bytes)
    requires block.Length == BLOCK_SIZE && |s| <= BLOCK_SIZE
    modifies block
    ensures block[..] == XorBlock(old(block[..]), Pad(s))
  {
    for j := 0 to |s|
      invariant forall i | 0 <= i < j :: block[i] == XorByte(old(block[i]), s[i])
      invariant forall i | j <= i < BLOCK_SIZE :: block[i] == old(block[i])
    {
      block[j] := XorByte(block[j], s[j]);
    }
    ghost var r := XorBlock(old(block[..]), Pad(s));
    forall i | 0 <= i < BLOCK_SIZE ensures block[i] == r[i] {
      if i >= |s| { assert XorByte(old(block[i]), 0) == old(block[i]); }
    }
    assert |block[..]| == |r|;
  }

  method SealBlock(k: Cipher, offset: Block, checksum: array<bv8>, x: Block) returns (c: Block)
    requires checksum.Length == BLOCK_SIZE
    modifies checksum
    ensures c == XorBlock(k.enc(XorBlock(offset, x)), offset) && checksum[..] == XorBlock(old(checksum[..]), x)
  {
    hide Xor;
    Ocb15.XorBytes(checksum, checksum[..], x);
    var tmp := new bv8[16];
    Ocb15.XorBytes(tmp, offset, x);
    var e := k.enc(tmp[..]);
    Ocb15.XorBytes(tmp, e, offset);
    c := tmp[..];
  }

  method OpenBlock(k: Cipher, offset: Block, checksum: array<bv8>, c: Block) returns (x: Block)
    requires checksum.Length == BLOCK_SIZE
    modifies checksum
    ensures x == XorBlock(k.dec(XorBlock(offset, c)), offset) && checksum[..] == XorBlock(old(checksum[..]), x)
  {
    hide Xor;
    var tmp := new bv8[16];
    Ocb15.XorBytes(tmp, offset, c);
    var d := k.dec(tmp[..]);
    Ocb15.XorBytes(tmp, d, offset);
    x := tmp[..];
    Ocb15.XorBytes(checksum, checksum[..], x);
  }

  /** The last block is padded even when it is whole. */
  method LastBlock(k: Cipher, offset: Block, checksum: array<bv8>, data: Bytes, encrypt: bool) returns (out: Bytes)
    requires checksum.Length == BLOCK_SIZE && |data| <= BLOCK_SIZE
    modifies checksum
    ensures out == Xor(data, k.enc(offset))
    ensures checksum[..] == XorBlock(old(checksum[..]), Pad(if encrypt then data else out))
  {
    hide Xor, Pad;
    var pad := k.enc(offset);
    out := Xor(data, pad);
    AddTo(checksum, if encrypt then data else out);
  }

  ghost function Run(k: Cipher, l: Block, offset: Block, sum: Block, i: nat, data: Bytes, encrypt: bool): Progress
    requires i > 0
  {
    if encrypt then SealFrom(k, l, offset, sum, i, data) else OpenFrom(k, l, offset, sum, i, data)
  }

  ghost function After(out: Bytes, r: Progress): Progress {
    r.(out := out + r.out)
  }

  /** The data from block `i` on. */
  ghost function Rest(data: Bytes, i: nat): Bytes
    requires i > 0
  {
    var at := (i - 1) * BLOCK_SIZE;
    if at < |data| then data[at..] else []
  }

  lemma AfterBoth(out: Bytes, y: Bytes, r: Progress)
    ensures After(out, After(y, r)) == After(out + y, r)
  {
    assert out + (y + r.out) == out + y + r.out;
  }

  lemma RunBlock(k: Cipher, l: Block, offset: Block, sum: Block, i: nat, data: Bytes, encrypt: bool, d: Block, x: Block, y: Block)
    requires i > 0 && |data| > BLOCK_SIZE && d == XorBlock(offset, Mask(l, i))
    requires encrypt ==> x == data[..16] && y == XorBlock(k.enc(XorBlock(d, x)), d)
    requires !encrypt ==> x == XorBlock(k.dec(XorBlock(d, data[..16])), d) && y == x
    ensures Run(k, l, offset, sum, i, data, encrypt) == After(y, Run(k, l, d, XorBlock(sum, x), i + 1, data[16..], encrypt))
  {
    hide XorBlock, Mask;
  }

  lemma RunLast(k: Cipher, l: Block, offset: Block, sum: Block, i: nat, data: Bytes, encrypt: bool, d: Block, y: Bytes)
    requires i > 0 && 0 < |data| <= BLOCK_SIZE && d == XorBlock(offset, Mask(l, i)) && y == Xor(data, k.enc(d))
    ensures var s := XorBlock(sum, Pad(if encrypt then data else y));
      Run(k, l, offset, sum, i, data, encrypt) == After(y, Run(k, l, d, s, i + 1, [], encrypt))
  {
    hide XorBlock, Mask, Xor;
    assert y + [] == y;
  }

  lemma RunEnd(k: Cipher, l: Block, offset: Block, sum: Block, i: nat, encrypt: bool, out: Bytes)
    requires i > 0
    ensures After(out, Run(k, l, offset, sum, i, [], encrypt)) == Progress(out, offset, sum)
  {
    assert out + [] == out;
  }

  /** One turn of the data loop, for block `i` of `m`. */
  method DataTurn(k: Cipher, lstar: Block, offset: array<bv8>, checksum: array<bv8>, data: Bytes, i: nat, m: nat, encrypt: bool)
      returns (y: Bytes)
    requires offset.Length == checksum.Length == BLOCK_SIZE && offset != checksum
    requires m == (|data| + BLOCK_SIZE - 1) / BLOCK_SIZE && 1 <= i <= m
    modifies offset, checksum
    ensures Run(k, lstar, old(offset[..]), old(checksum[..]), i, Rest(data, i), encrypt)
         == After(y, Run(k, lstar, offset[..], checksum[..], i + 1, Rest(data, i + 1), encrypt))
  {
    hide Xor, Mask, Run, Pad, After;
    ghost var offset0: Block, sum0: Block, rest := offset[..], checksum[..], Rest(data, i);
    var at := (i - 1) * BLOCK_SIZE;
    var l := Lntz(lstar, i);
    Ocb15.XorBytes(offset, offset[..], l);
    if i == m {
      y := LastBlock(k, offset[..], checksum, data[at..], encrypt);
      RunLast(k, lstar, offset0, sum0, i, rest, encrypt, offset[..], y);
    } else {
      var block: Block := data[at..at + 16];
      assert block == rest[..16] && Rest(data, i + 1) == rest[16..];
      if encrypt {
        y := SealBlock(k, offset[..], checksum, block);
        RunBlock(k, lstar, offset0, sum0, i, rest, encrypt, offset[..], block, y);
      } else {
        y := OpenBlock(k, offset[..], checksum, block);
        RunBlock(k, lstar, offset0, sum0, i, rest, encrypt, offset[..], y, y);
      }
    }
  }

  /** The data loop, for either direction; `data` is without its tag. */
  method DataLoop(k: Cipher, lstar: Block, offset: array<bv8>, checksum: array<bv8>, data: Bytes, encrypt: bool) returns (out: Bytes)
    requires offset.Length == checksum.Length == BLOCK_SIZE && offset != checksum
    modifies offset, checksum
    ensures Progress(out, offset[..], checksum[..]) == Run(k, lstar, old(offset[..]), old(checksum[..]), 1, data, encrypt)
  {
    hide Run;
    out := [];
    var m := (|data| + BLOCK_SIZE - 1) / BLOCK_SIZE;
    ghost var whole := Run(k, lstar, offset[..], checksum[..], 1, data, encrypt);
    assert Rest(data, 1) == data;
    for i := 1 to m + 1
      invariant whole == After(out, Run(k, lstar, offset[..], checksum[..], i, Rest(data, i), encrypt))
    {
      var y := DataTurn(k, lstar, offset, checksum, data, i, m, encrypt);
      AfterBoth(out, y, Run(k, lstar, offset[..], checksum[..], i + 1, Rest(data, i + 1), encrypt));
      out := out + y;
    }
    RunEnd(k, lstar, offset[..], checksum[..], m + 1, encrypt, out);
  }

  method AdLoop(k: Cipher, lstar: Block, ad: Bytes) returns (sum: Block)
    ensures sum == AdSum(k, lstar, ZERO, ZERO, 1, ad)
  {
    hide Xor, Mask, Pad;
    var adOffset := new bv8[16](_ => 0);
    var adSum := new bv8[16](_ => 0);
    assert adOffset[..] == ZERO && adSum[..] == ZERO;
    var rest, adIdx := ad, 1;
    while |rest| > 0
      invariant adIdx > 0
      invariant AdSum(k, lstar, ZERO, ZERO, 1, ad) == AdSum(k, lstar, adOffset[..], adSum[..], adIdx, rest)
      decreases |rest|
    {
      var l := Lntz(lstar, adIdx);
      Ocb15.XorBytes(adOffset, adOffset[..], l);
      var block: Block;
      if |rest| >= BLOCK_SIZE {
        block := rest[..16];
        rest := rest[16..];
      } else {
        block := Marked(rest);
        rest := [];
      }
      var tmp := new bv8[16];
      Ocb15.XorBytes(tmp, block, adOffset[..]);
      var e := k.enc(tmp[..]);
      Ocb15.XorBytes(adSum, adSum[..], e);
      adIdx := adIdx + 1;
    }
    sum := adSum[..];
  }

  /** ocbCrypt, after ocbDecrypt's length test. */
  method Crypt(k: Cipher, nonce: Bytes, data: Bytes, ad: Bytes, encrypt: bool) returns (r: Result)
    requires !encrypt ==> |data| >= BLOCK_SIZE
    ensures r == if encrypt then Encrypted(k, nonce, data, ad) else Decrypted(k, nonce, data, ad)
  {
    hide Xor, AdSum, SealFrom, OpenFrom, Pad;
    if |nonce| < 1 || |nonce| > 15 { return BadNonce; }
    var padded := Pad(nonce);
    var first := k.enc(padded);
    var offset := new bv8[16](j requires 0 <= j < 16 => if j < |nonce| then first[j] else 0);
    assert offset[..] == Start(k, nonce) by { StartBytes(k, nonce, offset[..]); }
    var checksum := new bv8[16](_ => 0);
    assert checksum[..] == ZERO;
    var lstar := k.enc(ZERO);
    var n := if encrypt then |data| else |data| - BLOCK_SIZE;
    var out := DataLoop(k, lstar, offset, checksum, data[..n], encrypt);
    assert data[..|data|] == data;
    ghost var reached := Progress(out, offset[..], checksum[..]);
    var adSum := AdLoop(k, lstar, ad);
    Ocb15.XorBytes(offset, offset[..], checksum[..]);
    var e := k.enc(offset[..]);
    Ocb15.XorBytes(offset, e, adSum);
    assert offset[..] == Tag(k, reached, ad);
    if encrypt { return Ok(out + offset[..]); }
    return if data[n..] == offset[..] then Ok(out) else Unauthentic;
  }

  lemma StartBytes(k: Cipher, nonce: Bytes, b: Block)
    requires 1 <= |nonce| <= 15
    requires forall j | 0 <= j < 16 :: b[j] == if j < |nonce| then k.enc(Pad(nonce))[j] else 0
    ensures b == Start(k, nonce)
  {
  }

  // ---------------------------------------------------------------- packet counters

  function Prefix(s: Bytes, n: nat): Bytes {
    if |s| <= n then s else s[..n]
  }

  /** The 12-byte nonce prefix of a connection: 4 bytes of the encrypted iv, then zeros. */
  function BaseNonce(k: Cipher, iv: Bytes): (nonce: Bytes)
    ensures |nonce| == 12
  {
    k.enc(Pad(Prefix(iv, 16)))[..4] + Zeros(8)
  }

  /** The nonce of a packet: `counter`, as four big-endian bytes, is added to the first four. */
  function PacketNonce(nonce: Bytes, counter: Bytes): (r: Bytes)
    requires |nonce| == 12 && |counter| == 4
    ensures |r| == 12
  {
    Xor(nonce[..4], counter) + nonce[4..]
  }

  /** Different counters never share a nonce. */
  lemma NoncesDiffer(nonce: Bytes, counter: Bytes, other: Bytes)
    requires |nonce| == 12 && |counter| == |other| == 4
    requires PacketNonce(nonce, counter) == PacketNonce(nonce, other)
    ensures counter == other
  {
    var a, b := Xor(nonce[..4], counter), Xor(nonce[..4], other);
    assert a == PacketNonce(nonce, counter)[..4] == b;
    forall i | 0 <= i < 4 ensures counter[i] == other[i] {
      assert XorByte(nonce[i], counter[i]) == a[i] == b[i] == XorByte(nonce[i], other[i]);
    }
  }

  class CryptState {
    var cipher: Cipher
    var nonce: Bytes
    var initialized: bool

    constructor (unused: Cipher)
      ensures !initialized && nonce == Zeros(12)
    {
      cipher, nonce, initialized := unused, Zeros(12), false;
    }

    ghost predicate Valid()
      reads this
    {
      |nonce| == 12 && forall i | 4 <= i < 12 :: nonce[i] == 0
    }

    /** `k` is AES under a key of `keyLength` bytes. */
    method Setup(keyLength: nat, k: Cipher, iv: Bytes) returns (ok: bool)
      requires Valid()
      modifies this
      ensures Valid() && ok == (keyLength == 16)
      ensures ok ==> initialized && cipher == k && nonce == BaseNonce(k, iv)
      ensures !ok ==> initialized == old(initialized) && cipher == old(cipher) && nonce == old(nonce)
    {
      if keyLength != 16 { return false; }
      cipher := k;
      var encIv := k.enc(Pad(Prefix(iv, 16)));
      nonce := encIv[..4] + nonce[4..];
      assert nonce == BaseNonce(k, iv);
      initialized := true;
      ok := true;
    }

    method Encrypt(counter: Bytes, plaintext: Bytes) returns (r: Result)
      requires Valid() && |counter| == 4
      ensures r == if initialized then Encrypted(cipher, PacketNonce(nonce, counter), plaintext, []) else Ok(plaintext)
    {
      if !initialized { return Ok(plaintext); }
      r := Crypt(cipher, PacketNonce(nonce, counter), plaintext, [], true);
    }

    method Decrypt(counter: Bytes, ciphertext: Bytes) returns (r: Result)
      requires Valid() && |counter| == 4
      ensures r == if initialized then Decrypted(cipher, PacketNonce(nonce, counter), ciphertext, []) else Ok(ciphertext)
    {
      if !initialized { return Ok(ciphertext); }
      if |ciphertext| < BLOCK_SIZE { return TooShort; }
      r := Crypt(cipher, PacketNonce(nonce, counter), ciphertext, [], false);
    }
  }
}
