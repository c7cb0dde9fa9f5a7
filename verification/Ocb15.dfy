/** The OCB variant of Mumble 1.5 native UDP: no associated data, and the XEX* countermeasure. */
module Ocb15 {
  import opened Blocks

  // ---------------------------------------------------------------- specification

  function Triple(b: Block): Block {
    XorBlock(Double(b), b)
  }

  /** The block that carries the bit length of the final, partial block. */
  function LengthBlock(n: nat): Block
    requires n <= BLOCK_SIZE
  {
    Zeros(15) + [(n * 8) as bv8]
  }

  const LOW_BIT: Block := [1] + Zeros(15)

  predicate LeadingZeros(s: Bytes) {
    |s| >= 15 && forall i | 0 <= i < 15 :: s[i] == 0
  }

  /** The countermeasure flips one bit of the second-to-last block when its first 15 bytes are zero. */
  predicate Flips(p: Bytes) {
    16 < |p| <= 32 && LeadingZeros(p)
  }

  function Flip(p: Bytes): Block {
    if Flips(p) then LOW_BIT else ZERO
  }

  function FinalPad(k: Cipher, d: Block, n: nat): Block
    requires n <= BLOCK_SIZE
  {
    k.enc(XorBlock(LengthBlock(n), d))
  }

  /** What the last block contributes to the checksum; `c` is its ciphertext. */
  function FinalSum(k: Cipher, d: Block, c: Bytes): Block
    requires |c| <= BLOCK_SIZE
  {
    XorBlock(Pad(c), FinalPad(k, d, |c|))
  }

  function Tag(k: Cipher, d: Block, sum: Block): Block {
    k.enc(XorBlock(Triple(d), sum))
  }

  /** Ciphertext and tag of `p`, from the offset and checksum reached so far. */
  function Seal(k: Cipher, delta: Block, sum: Block, p: Bytes): (Bytes, Block)
    decreases |p|
  {
    var d := Double(delta);
    if |p| > BLOCK_SIZE then
      var x := XorBlock(p[..16], Flip(p));
      var (rest, tag) := Seal(k, d, XorBlock(sum, x), p[16..]);
      (XorBlock(k.enc(XorBlock(x, d)), d) + rest, tag)
    else
      var c := Xor(p, FinalPad(k, d, |p|));
      (c, Tag(k, d, XorBlock(sum, FinalSum(k, d, c))))
  }

  datatype Opened = Opened(plain: Bytes, tag: Block) | Forgery

  predicate MatchesDelta(sum: Block, d: Block) {
    sum[..15] == d[..15]
  }

  /** Plaintext and tag of `c`, or the report of an XEX* pattern. */
  function Open(k: Cipher, delta: Block, sum: Block, c: Bytes): Opened
    decreases |c|
  {
    var d := Double(delta);
    if |c| > BLOCK_SIZE then
      var x := XorBlock(k.dec(XorBlock(c[..16], d)), d);
      match Open(k, d, XorBlock(sum, x), c[16..])
      case Forgery => Forgery
      case Opened(rest, tag) => Opened(x + rest, tag)
    else
      var last := FinalSum(k, d, c);
      if MatchesDelta(last, d) then Forgery
      else Opened(Xor(c, FinalPad(k, d, |c|)), Tag(k, d, XorBlock(sum, last)))
  }

  // ---------------------------------------------------------------- what a round trip returns

  /** Index of the first byte of the second-to-last block of a message longer than one block. */
  function SecondToLast(n: nat): (i: nat)
    requires n > BLOCK_SIZE
    ensures i % 16 == 0 && i + 16 < n <= i + 32
  {
    (n - 17) / 16 * 16
  }

  predicate Tweaks(p: Bytes) {
    |p| > BLOCK_SIZE && LeadingZeros(p[SecondToLast(|p|)..])
  }

  /** The plaintext a receiver sees: byte 0 of the second-to-last block may have its low bit flipped. */
  function Tweak(p: Bytes): (r: Bytes)
    ensures |r| == |p|
  {
    if Tweaks(p) then var i := SecondToLast(|p|); p[i := p[i] ^ 1] else p
  }

  /** The last block of `p` and its offset, where the XEX* pattern is looked for. */
  function LastOffset(delta: Block, n: nat): Block
    decreases n
  {
    if n > BLOCK_SIZE then LastOffset(Double(delta), n - 16) else Double(delta)
  }

  function LastBlock(p: Bytes): (r: Bytes)
    ensures |r| <= BLOCK_SIZE && |r| <= |p| && r == p[|p| - |r|..]
  {
    if |p| > BLOCK_SIZE then p[SecondToLast(|p|) + 16..] else p
  }

  /** The last plaintext block, completed by the tail of its pad, equals the offset in its first 15 bytes. */
  predicate Flagged(k: Cipher, delta: Block, p: Bytes) {
    var d := LastOffset(delta, |p|);
    var last := LastBlock(p);
    MatchesDelta(last + FinalPad(k, d, |last|)[|last|..], d)
  }

  lemma FlipTwice(x: Block, d: Block, k: Cipher)
    requires k.Invertible()
    ensures XorBlock(k.dec(XorBlock(XorBlock(k.enc(XorBlock(x, d)), d), d)), d) == x
  {
    XorCancel(k.enc(XorBlock(x, d)), d);
    XorCancel(x, d);
  }

  lemma ByFlip(x: bv8)
    ensures XorByte(x, 0) == x && XorByte(x, 1) == x ^ 1
  {
  }

  lemma TweakStep(p: Bytes)
    requires |p| > BLOCK_SIZE
    ensures Tweak(p) == XorBlock(p[..16], Flip(p)) + Tweak(p[16..])
  {
    hide XorByte;
    var x := XorBlock(p[..16], Flip(p));
    var q := p[16..];
    if |p| <= 32 {
      assert SecondToLast(|p|) == 0 && p[0..] == p;
      forall i | 0 <= i < 16
        ensures x[i] == Tweak(p)[i]
      {
        assert x[i] == XorByte(p[i], Flip(p)[i]);
        ByFlip(p[i]);
      }
    } else {
      XorZero(p[..16]);
      var i := SecondToLast(|q|);
      assert SecondToLast(|p|) == i + 16;
      assert p[i + 16..] == q[i..];
    }
    assert Tweak(p)[..16] == x;
    assert Tweak(p)[16..] == Tweak(q);
  }

  lemma FinalRoundTrip(k: Cipher, d: Block, p: Bytes)
    requires |p| <= BLOCK_SIZE
    ensures var c := Xor(p, FinalPad(k, d, |p|));
            && Xor(c, FinalPad(k, d, |c|)) == p
            && FinalSum(k, d, c) == p + FinalPad(k, d, |p|)[|p|..]
  {
    var pad := FinalPad(k, d, |p|);
    var c := Xor(p, pad);
    XorCancel(p, pad);
    var s := FinalSum(k, d, c);
    forall i | 0 <= i < BLOCK_SIZE
      ensures s[i] == (p + pad[|p|..])[i]
    {
      if i < |p| {
        assert s[i] == (p[i] ^ pad[i]) ^ pad[i];
      } else {
        assert s[i] == 0 ^ pad[i];
      }
    }
  }

  lemma SealStep(k: Cipher, delta: Block, sum: Block, p: Bytes)
    requires |p| > BLOCK_SIZE
    ensures var d, x := Double(delta), XorBlock(p[..16], Flip(p));
            var r := Seal(k, d, XorBlock(sum, x), p[16..]);
            Seal(k, delta, sum, p) == (XorBlock(k.enc(XorBlock(x, d)), d) + r.0, r.1)
  {
    hide Double, XorBlock, Flip;
  }

  lemma OpenStep(k: Cipher, delta: Block, sum: Block, head: Block, c: Bytes)
    requires |c| > 0
    ensures var d := Double(delta);
            var x := XorBlock(k.dec(XorBlock(head, d)), d);
            Open(k, delta, sum, head + c)
            == match Open(k, d, XorBlock(sum, x), c)
               case Forgery => Forgery
               case Opened(rest, tag) => Opened(x + rest, tag)
  {
    hide Double, XorBlock;
    assert (head + c)[..16] == head && (head + c)[16..] == c;
  }

  lemma FlaggedStep(k: Cipher, delta: Block, p: Bytes)
    requires |p| > BLOCK_SIZE
    ensures Flagged(k, delta, p) == Flagged(k, Double(delta), p[16..])
  {
    hide Double, FinalPad, MatchesDelta;
    var q := p[16..];
    if |q| > BLOCK_SIZE {
      assert p[SecondToLast(|p|) + 16..] == q[SecondToLast(|q|) + 16..];
    }
    assert LastBlock(p) == LastBlock(q);
  }

  /** Opening what was sealed either reports the XEX* pattern or returns the tweaked plaintext and the same tag. */
  lemma {:induction false} OpenAfterSeal(k: Cipher, delta: Block, sum: Block, p: Bytes)
    requires k.Invertible()
    ensures |Seal(k, delta, sum, p).0| == |p|
    ensures Open(k, delta, sum, Seal(k, delta, sum, p).0)
         == if Flagged(k, delta, p) then Forgery else Opened(Tweak(p), Seal(k, delta, sum, p).1)
    decreases |p|
  {
    hide Double, XorBlock, Flip, Flagged, Tweak, FinalPad, FinalSum;
    var d := Double(delta);
    if |p| > BLOCK_SIZE {
      var x := XorBlock(p[..16], Flip(p));
      var s := XorBlock(sum, x);
      OpenAfterSeal(k, d, s, p[16..]);
      TweakStep(p);
      FlaggedStep(k, delta, p);
      FlipTwice(x, d, k);
      SealStep(k, delta, sum, p);
      OpenStep(k, delta, sum, XorBlock(k.enc(XorBlock(x, d)), d), Seal(k, d, s, p[16..]).0);
    } else {
      OneBlock(k, delta, sum, p);
    }
  }

  lemma OneBlock(k: Cipher, delta: Block, sum: Block, p: Bytes)
    requires |p| <= BLOCK_SIZE
    ensures |Seal(k, delta, sum, p).0| == |p|
    ensures Open(k, delta, sum, Seal(k, delta, sum, p).0)
         == if Flagged(k, delta, p) then Forgery else Opened(Tweak(p), Seal(k, delta, sum, p).1)
  {
    hide Double, XorBlock, FinalPad, FinalSum;
    FinalRoundTrip(k, Double(delta), p);
  }

  /** Every byte of the returned plaintext is the sent one, except that one bit. */
  lemma TweakTouchesOneBit(p: Bytes, i: nat)
    requires i < |p|
    ensures Tweak(p)[i] != p[i] ==>
              && |p| > BLOCK_SIZE && i == SecondToLast(|p|) && LeadingZeros(p[i..])
              && p[i] == 0 && Tweak(p)[i] == 1
    ensures |p| <= BLOCK_SIZE ==> Tweak(p) == p
  {
    if Tweaks(p) {
      var j := SecondToLast(|p|);
      assert p[j..][0] == 0;
    }
  }

  // ---------------------------------------------------------------- the source's loops

  method XorBytes(dst: array<bv8>, a: Bytes, b: Bytes)
    requires |a| == dst.Length <= |b|
    modifies dst
    ensures dst[..] == Xor(a, b)
  {
    hide XorByte;
    var i := 0;
    while i < dst.Length
      invariant 0 <= i <= dst.Length
      invariant forall j | 0 <= j < i :: dst[j] == XorByte(a[j], b[j])
    {
      dst[i] := XorByte(a[i], b[i]);
      i := i + 1;
    }
  }

  lemma IsDouble(b: Block, r: Block)
    requires forall i | 0 <= i < 15 :: r[i] == ShiftByte(b[i], b[i + 1])
    requires r[15] == ShiftLast(b[15], b[0])
    ensures r == Double(b)
  {
    hide ShiftByte, ShiftLast;
    var d := Double(b);
    forall i | 0 <= i < 15
      ensures r[i] == d[i]
    {
      assert d[i] == ShiftByte(b[i], b[i + 1]);
    }
  }

  method Shift2InPlace(block: array<bv8>)
    requires block.Length == BLOCK_SIZE
    modifies block
    ensures block[..] == Double(old(block[..]))
  {
    hide ShiftByte, ShiftLast, Double;
    var top := block[0];
    var i := 0;
    while i < 15
      invariant 0 <= i <= 15
      invariant forall j | 0 <= j < i :: block[j] == ShiftByte(old(block[j]), old(block[j + 1]))
      invariant forall j | i <= j < 16 :: block[j] == old(block[j])
    {
      block[i] := ShiftByte(block[i], block[i + 1]);
      i := i + 1;
    }
    block[15] := ShiftLast(block[15], top);
    IsDouble(old(block[..]), block[..]);
  }

  method Shift3InPlace(block: array<bv8>)
    requires block.Length == BLOCK_SIZE
    modifies block
    ensures block[..] == Triple(old(block[..]))
  {
    var orig := block[..];
    Shift2InPlace(block);
    XorBytes(block, block[..], orig);
  }

  method AllZero(s: Bytes) returns (z: bool)
    ensures z <==> forall i | 0 <= i < |s| :: s[i] == 0
  {
    for i := 0 to |s|
      invariant forall j | 0 <= j < i :: s[j] == 0
    {
      if s[i] != 0 {
        return false;
      }
    }
    return true;
  }

  // Flipping bit 0 of byte 0 is an exclusive or with LOW_BIT.
  method FlipIf(block: array<bv8>, flip: bool)
    requires block.Length == BLOCK_SIZE
    modifies block
    ensures block[..] == XorBlock(old(block[..]), if flip then LOW_BIT else ZERO)
  {
    XorZero(block[..]);
    if flip {
      block[0] := XorByte(block[0], 1);
      ghost var was: Block := old(block[..]);
      forall i | 0 <= i < 16
        ensures block[..][i] == XorBlock(was, LOW_BIT)[i]
      {
        assert XorByte(was[i], 0) == was[i];
      }
    }
  }

  method SealFullBlock(k: Cipher, delta: array<bv8>, checksum: array<bv8>, head: Block, flip: bool) returns (c: Block)
    requires delta.Length == checksum.Length == BLOCK_SIZE && delta != checksum
    modifies delta, checksum
    ensures var x := XorBlock(head, if flip then LOW_BIT else ZERO);
            && delta[..] == Double(old(delta[..]))
            && checksum[..] == XorBlock(old(checksum[..]), x)
            && c == XorBlock(k.enc(XorBlock(x, delta[..])), delta[..])
  {
    hide Double, Xor, XorByte, LOW_BIT;
    ghost var f: Block := if flip then LOW_BIT else ZERO;
    Shift2InPlace(delta);
    ghost var d: Block, s: Block := delta[..], checksum[..];
    XorBytes(checksum, checksum[..], head);
    FlipIf(checksum, flip);
    XorAssoc(s, head, f);
    var tmp := new bv8[16];
    XorBytes(tmp, head, delta[..]);
    FlipIf(tmp, flip);
    assert tmp[..] == XorBlock(XorBlock(head, f), d) by {
      XorAssoc(head, d, f);
      XorComm(d, f);
      XorAssoc(head, f, d);
    }
    var e := k.enc(tmp[..]);
    XorBytes(tmp, e, delta[..]);
    c := tmp[..];
  }

  // The pad of the final block, and what that block adds to the checksum given its ciphertext.
  method FinalBlock(k: Cipher, delta: array<bv8>, n: nat) returns (pad: Block)
    requires n <= BLOCK_SIZE && delta.Length == BLOCK_SIZE
    modifies delta
    ensures delta[..] == Double(old(delta[..])) && pad == FinalPad(k, delta[..], n)
  {
    hide Double, Xor, XorByte;
    Shift2InPlace(delta);
    var tmp := new bv8[16](_ => 0);
    tmp[15] := (n * 8) as bv8;
    assert tmp[..] == LengthBlock(n);
    XorBytes(tmp, tmp[..], delta[..]);
    pad := k.enc(tmp[..]);
  }

  method FinalChecksum(k: Cipher, ghost d: Block, pad: Block, c: Bytes) returns (csTemp: array<bv8>)
    requires |c| <= BLOCK_SIZE && pad == FinalPad(k, d, |c|)
    ensures fresh(csTemp) && csTemp.Length == BLOCK_SIZE && csTemp[..] == FinalSum(k, d, c)
  {
    hide FinalPad, Xor, XorByte;
    csTemp := new bv8[16](i requires 0 <= i < 16 => if i < |c| then c[i] else 0);
    assert csTemp[..] == Pad(c);
    XorBytes(csTemp, csTemp[..], pad);
  }

  method FinalTag(k: Cipher, delta: array<bv8>, checksum: array<bv8>, last: Block) returns (tag: Block)
    requires delta.Length == checksum.Length == BLOCK_SIZE && delta != checksum
    modifies delta, checksum
    ensures tag == Tag(k, old(delta[..]), XorBlock(old(checksum[..]), last))
  {
    hide Triple, Xor, XorByte;
    XorBytes(checksum, checksum[..], last);
    Shift3InPlace(delta);
    XorBytes(delta, delta[..], checksum[..]);
    tag := k.enc(delta[..]);
  }

  method StartState(n: Block) returns (delta: array<bv8>, checksum: array<bv8>)
    ensures fresh(delta) && fresh(checksum) && delta != checksum
    ensures delta.Length == checksum.Length == BLOCK_SIZE && delta[..] == n && checksum[..] == ZERO
  {
    delta := new bv8[16](i requires 0 <= i < 16 => n[i]);
    checksum := new bv8[16](_ => 0);
  }

  method FlipNeeded(p: Bytes) returns (flip: bool)
    requires |p| > BLOCK_SIZE
    ensures flip == Flips(p)
  {
    flip := |p| <= 32;
    if flip {
      flip := AllZero(p[..15]);
      assert forall i | 0 <= i < 15 :: p[..15][i] == p[i];
    }
  }

  method Encrypt(k: Cipher, nonce: Block, plaintext: Bytes) returns (ciphertext: Bytes, tag: Block)
    ensures (ciphertext, tag) == Seal(k, k.enc(nonce), ZERO, plaintext)
  {
    hide Double, XorBlock, FinalPad, FinalSum, Tag, LOW_BIT, ZERO, Flips;
    var n := k.enc(nonce);
    var delta, checksum := StartState(n);
    var pos, remaining := 0, |plaintext|;
    ciphertext := [];
    assert plaintext[0..] == plaintext && ciphertext + Seal(k, n, ZERO, plaintext).0 == Seal(k, n, ZERO, plaintext).0;
    while remaining > 16
      invariant 0 <= pos && remaining >= 0 && pos + remaining == |plaintext|
      invariant fresh(delta) && fresh(checksum)
      invariant Resumes(k, n, plaintext, delta[..], checksum[..], plaintext[pos..], ciphertext)
    {
      ghost var d0: Block, s0: Block, p := delta[..], checksum[..], plaintext[pos..];
      var head := plaintext[pos..pos + 16];
      assert p[..16] == head && p[16..] == plaintext[pos + 16..];
      var flip := FlipNeeded(plaintext[pos..]);
      var c := SealFullBlock(k, delta, checksum, head, flip);
      assert (if flip then LOW_BIT else ZERO) == Flip(p);
      ResumeStep(k, n, plaintext, d0, s0, p, ciphertext);
      ciphertext := ciphertext + c;
      pos, remaining := pos + 16, remaining - 16;
    }
    ghost var p := plaintext[pos..];
    var pad := FinalBlock(k, delta, remaining);
    var cpart := new bv8[remaining];
    XorBytes(cpart, plaintext[pos..], pad[..remaining]);
    assert cpart[..] == Xor(plaintext[pos..], pad);
    ciphertext := ciphertext + cpart[..];
    var csTemp := FinalChecksum(k, delta[..], pad, cpart[..]);
    tag := FinalTag(k, delta, checksum, csTemp[..]);
  }

  // What remains to be sealed completes `done` to the sealing of the whole plaintext.
  ghost predicate Resumes(k: Cipher, n: Block, whole: Bytes, delta: Block, sum: Block, rest: Bytes, done: Bytes) {
    var (c, t) := Seal(k, delta, sum, rest);
    (done + c, t) == Seal(k, n, ZERO, whole)
  }

  lemma ResumeStep(k: Cipher, n: Block, whole: Bytes, delta: Block, sum: Block, p: Bytes, done: Bytes)
    requires |p| > BLOCK_SIZE && Resumes(k, n, whole, delta, sum, p, done)
    ensures var d, x := Double(delta), XorBlock(p[..16], Flip(p));
            Resumes(k, n, whole, d, XorBlock(sum, x), p[16..], done + XorBlock(k.enc(XorBlock(x, d)), d))
  {
    hide Double, XorBlock, Flip, Seal;
    SealStep(k, delta, sum, p);
    var d, x := Double(delta), XorBlock(p[..16], Flip(p));
    var c := XorBlock(k.enc(XorBlock(x, d)), d);
    var r := Seal(k, d, XorBlock(sum, x), p[16..]);
    assert done + (c + r.0) == (done + c) + r.0;
  }

  method OpenFullBlock(k: Cipher, delta: array<bv8>, checksum: array<bv8>, head: Block) returns (x: Block)
    requires delta.Length == checksum.Length == BLOCK_SIZE && delta != checksum
    modifies delta, checksum
    ensures delta[..] == Double(old(delta[..]))
    ensures x == XorBlock(k.dec(XorBlock(head, delta[..])), delta[..])
    ensures checksum[..] == XorBlock(old(checksum[..]), x)
  {
    hide Double, Xor, XorByte;
    Shift2InPlace(delta);
    var tmp := new bv8[16];
    XorBytes(tmp, head, delta[..]);
    var e := k.dec(tmp[..]);
    XorBytes(tmp, e, delta[..]);
    x := tmp[..];
    XorBytes(checksum, checksum[..], tmp[..]);
  }

  method SamePrefix(a: array<bv8>, b: array<bv8>) returns (same: bool)
    requires a.Length == b.Length == BLOCK_SIZE
    ensures same == MatchesDelta(a[..], b[..])
  {
    for i := 0 to 15
      invariant forall j | 0 <= j < i :: a[j] == b[j]
    {
      if a[i] != b[i] {
        assert a[..][..15][i] != b[..][..15][i];
        return false;
      }
    }
    assert a[..][..15] == b[..][..15];
    return true;
  }

  ghost predicate ResumesOpen(k: Cipher, n: Block, whole: Bytes, delta: Block, sum: Block, rest: Bytes, done: Bytes) {
    Open(k, n, ZERO, whole)
    == match Open(k, delta, sum, rest)
       case Forgery => Forgery
       case Opened(p, t) => Opened(done + p, t)
  }

  lemma ResumeOpenStep(k: Cipher, n: Block, whole: Bytes, delta: Block, sum: Block, c: Bytes, done: Bytes)
    requires |c| > BLOCK_SIZE && ResumesOpen(k, n, whole, delta, sum, c, done)
    ensures var d := Double(delta);
            var x := XorBlock(k.dec(XorBlock(c[..16], d)), d);
            ResumesOpen(k, n, whole, d, XorBlock(sum, x), c[16..], done + x)
  {
    hide Double, XorBlock, Open;
    assert c == c[..16] + c[16..];
    OpenStep(k, delta, sum, c[..16], c[16..]);
    var d := Double(delta);
    var x := XorBlock(k.dec(XorBlock(c[..16], d)), d);
    var r := Open(k, d, XorBlock(sum, x), c[16..]);
    assert r.Opened? ==> done + (x + r.plain) == (done + x) + r.plain;
  }

  method Decrypt(k: Cipher, nonce: Block, ciphertext: Bytes) returns (r: Opened)
    ensures r == Open(k, k.enc(nonce), ZERO, ciphertext)
  {
    hide Double, XorBlock, FinalPad, FinalSum, Tag;
    var n := k.enc(nonce);
    var delta, checksum := StartState(n);
    var pos, remaining := 0, |ciphertext|;
    var plaintext: Bytes := [];
    assert ciphertext[0..] == ciphertext;
    while remaining > 16
      invariant 0 <= pos && remaining >= 0 && pos + remaining == |ciphertext|
      invariant fresh(delta) && fresh(checksum)
      invariant ResumesOpen(k, n, ciphertext, delta[..], checksum[..], ciphertext[pos..], plaintext)
    {
      ghost var d0: Block, s0: Block, c := delta[..], checksum[..], ciphertext[pos..];
      var head := ciphertext[pos..pos + 16];
      assert c[..16] == head && c[16..] == ciphertext[pos + 16..];
      var x := OpenFullBlock(k, delta, checksum, head);
      ResumeOpenStep(k, n, ciphertext, d0, s0, c, plaintext);
      plaintext := plaintext + x;
      pos, remaining := pos + 16, remaining - 16;
    }
    var last := ciphertext[pos..];
    var pad := FinalBlock(k, delta, remaining);
    var ppart := new bv8[remaining];
    XorBytes(ppart, last, pad[..remaining]);
    assert ppart[..] == Xor(last, pad);
    plaintext := plaintext + ppart[..];
    var csTemp := FinalChecksum(k, delta[..], pad, last);
    var matchesDelta := SamePrefix(csTemp, delta);
    if matchesDelta {
      return Forgery;
    }
    var tag := FinalTag(k, delta, checksum, csTemp[..]);
    return Opened(plaintext, tag);
  }
}
