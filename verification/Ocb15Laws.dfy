/** What ciphertext and tag of the native UDP mode are, block by block, and what the tag tells apart. */
module Ocb15Laws {
  import opened Blocks
  import opened BlockSums
  import opened Doubling
  import opened Iv
  import opened Ocb15

  // ---------------------------------------------------------------- offsets

  function BlockCount(n: nat): nat {
    if n == 0 then 1 else (n + 15) / 16
  }

  /** A message of m blocks ends on the m-th doubling of the encrypted nonce. */
  lemma {:induction false} LastOffsetIs(delta: Block, n: nat)
    ensures LastOffset(delta, n) == Doubled(delta, BlockCount(n))
    decreases n
  {
    hide Double;
    if n > BLOCK_SIZE {
      LastOffsetIs(Double(delta), n - 16);
      assert BlockCount(n) == BlockCount(n - 16) + 1;
    }
  }

  /** Three times a block is its double and itself: adding the block again leaves the double. */
  lemma TripleIs(b: Block)
    ensures XorBlock(Triple(b), b) == Double(b)
  {
    XorCancel(Double(b), b);
  }

  lemma LengthByte(n: nat)
    requires n <= BLOCK_SIZE
    ensures ByteVal((n * 8) as bv8) == n * 8
  {
  }

  /** The length block holds the number of bits. */
  lemma LengthBlockIs(n: nat)
    requires n <= BLOCK_SIZE
    ensures BigValue(LengthBlock(n)) == 8 * n
  {
    hide ByteVal;
    LengthByte(n);
    ZerosValue(15);
    assert LengthBlock(n)[..15] == Zeros(15) && LengthBlock(n)[15] == (n * 8) as bv8;
  }

  // ---------------------------------------------------------------- ciphertext

  /** Every full block of ciphertext but the last is made from its own plaintext block and its own offset alone. */
  lemma {:induction false} SealedBlock(k: Cipher, delta: Block, sum: Block, p: Bytes, i: nat)
    requires 16 * i + 16 < |p|
    ensures Enciphers(k, Doubled(delta, i + 1), Tweak(p), Seal(k, delta, sum, p).0, i)
    decreases |p|
  {
    hide Double, XorBlock, Flip, Tweak, Enciphers, Seal, Doubled;
    var d, x, q := Double(delta), XorBlock(p[..16], Flip(p)), p[16..];
    SealStep(k, delta, sum, p);
    TweakStep(p);
    DoubledStep(delta, i + 1);
    var lead, c := XorBlock(k.enc(XorBlock(x, d)), d), Seal(k, d, XorBlock(sum, x), q).0;
    if i > 0 {
      SealedBlock(k, d, XorBlock(sum, x), q, i - 1);
      EnciphersLater(k, Doubled(delta, i + 1), x, Tweak(q), lead, c, i - 1);
    } else {
      DoubledStep(d, 0);
      FirstBlock(k, d, x, Tweak(q), c);
    }
  }

  /** The last block is the plaintext under a pad made from its length and its offset. */
  lemma {:induction false} SealedEnd(k: Cipher, delta: Block, sum: Block, p: Bytes)
    ensures var i := LastStart(|p|);
      EndsWith(Seal(k, delta, sum, p).0, i, Xor(p[i..], k.enc(XorBlock(LengthBlock(|p| - i), Doubled(delta, BlockCount(|p|))))))
    decreases |p|
  {
    hide Double, XorBlock, Flip, LengthBlock, Xor, Doubled, Seal;
    var i := LastStart(|p|);
    DoubledStep(delta, BlockCount(|p|));
    if |p| > BLOCK_SIZE {
      var d, x, q := Double(delta), XorBlock(p[..16], Flip(p)), p[16..];
      SealedEnd(k, d, XorBlock(sum, x), q);
      SealStep(k, delta, sum, p);
      assert LastStart(|q|) == i - 16 && BlockCount(|p|) == BlockCount(|q|) + 1;
      assert p[i..] == q[i - 16..];
      var lead: Block, c := XorBlock(k.enc(XorBlock(x, d)), d), Seal(k, d, XorBlock(sum, x), q).0;
      assert (lead + c)[i..] == c[i - 16..];
    } else {
      DoubledStep(Double(delta), 0);
      OneBlockSealed(k, delta, sum, p);
      assert p[0..] == p;
    }
  }

  lemma OneBlockSealed(k: Cipher, delta: Block, sum: Block, p: Bytes)
    requires |p| <= BLOCK_SIZE
    ensures EndsWith(Seal(k, delta, sum, p).0, 0, Xor(p, k.enc(XorBlock(LengthBlock(|p|), Double(delta)))))
  {
    hide Double, XorBlock, LengthBlock, Xor, FinalSum, Tag;
  }

  // ---------------------------------------------------------------- tag

  /** The pad beyond the last block's bytes, which counts towards the checksum. */
  function PadTail(k: Cipher, d: Block, n: nat): Block
    requires n <= BLOCK_SIZE
  {
    Zeros(n) + FinalPad(k, d, n)[n..]
  }

  lemma FinalSumIs(k: Cipher, d: Block, p: Bytes)
    requires |p| <= BLOCK_SIZE
    ensures FinalSum(k, d, Xor(p, FinalPad(k, d, |p|))) == XorBlock(Pad(p), PadTail(k, d, |p|))
  {
    hide FinalPad;
    FinalRoundTrip(k, d, p);
    var pad := FinalPad(k, d, |p|);
    var s, t := p + pad[|p|..], XorBlock(Pad(p), PadTail(k, d, |p|));
    forall i | 0 <= i < BLOCK_SIZE
      ensures s[i] == t[i]
    {
      if i < |p| {
        assert t[i] == XorByte(p[i], 0);
      } else {
        assert t[i] == XorByte(0, pad[i]);
      }
    }
  }

  function LastSize(n: nat): nat {
    n - LastStart(n)
  }

  /** Everything a tag is made from but the offset. */
  function Summed(k: Cipher, delta: Block, sum: Block, p: Bytes): Block {
    XorBlock(sum, XorBlock(Checksum(Tweak(p)), PadTail(k, Doubled(delta, BlockCount(|p|)), LastSize(|p|))))
  }

  lemma {:induction false} TagIs(k: Cipher, delta: Block, sum: Block, p: Bytes)
    ensures Seal(k, delta, sum, p).1 == k.enc(XorBlock(Triple(Doubled(delta, BlockCount(|p|))), Summed(k, delta, sum, p)))
    decreases |p|
  {
    hide Double, XorBlock, Flip, Tweak, PadTail, Xor, FinalPad, FinalSum, Triple, Pad;
    if |p| > BLOCK_SIZE {
      var d, x, q := Double(delta), XorBlock(p[..16], Flip(p)), p[16..];
      TagIs(k, d, XorBlock(sum, x), q);
      SealStep(k, delta, sum, p);
      TweakStep(p);
      assert Tweak(p)[..16] == x && Tweak(p)[16..] == Tweak(q);
      assert BlockCount(|p|) == BlockCount(|q|) + 1 && LastSize(|p|) == LastSize(|q|);
      var c, t := Checksum(Tweak(q)), PadTail(k, Doubled(d, BlockCount(|q|)), LastSize(|q|));
      XorAssoc(sum, x, XorBlock(c, t));
      XorAssoc(x, c, t);
    } else {
      assert Doubled(delta, 1) == Double(delta);
      TweakTouchesNothing(p);
      FinalSumIs(k, Double(delta), p);
    }
  }

  lemma TweakTouchesNothing(p: Bytes)
    requires |p| <= BLOCK_SIZE
    ensures Tweak(p) == p
  {
  }

  /** Decrypting a tag gives three times the last offset plus the checksum of the plaintext and the rest of the last
      pad. */
  lemma TagOpens(k: Cipher, delta: Block, sum: Block, p: Bytes)
    requires k.Invertible()
    ensures var d := Doubled(delta, BlockCount(|p|));
      XorBlock(k.dec(Seal(k, delta, sum, p).1), Triple(d))
      == XorBlock(sum, XorBlock(Checksum(Tweak(p)), PadTail(k, d, LastSize(|p|))))
  {
    var d := Doubled(delta, BlockCount(|p|));
    TagIs(k, delta, sum, p);
    XorComm(Triple(d), Summed(k, delta, sum, p));
    XorCancel(Summed(k, delta, sum, p), Triple(d));
    hide Seal, Triple, Tweak, PadTail, Doubled, Checksum;
  }

  /** Two messages of one length, sealed alike, have the same tag exactly when their blocks have the same sum. */
  lemma SameTagExactly(k: Cipher, delta: Block, sum: Block, p: Bytes, q: Bytes)
    requires k.Invertible() && |p| == |q|
    ensures Seal(k, delta, sum, p).1 == Seal(k, delta, sum, q).1 <==> Checksum(Tweak(p)) == Checksum(Tweak(q))
  {
    hide Seal, XorBlock, Triple, Tweak, PadTail, Doubled, Checksum;
    var d := Doubled(delta, BlockCount(|p|));
    var t, cp, cq := PadTail(k, d, LastSize(|p|)), Checksum(Tweak(p)), Checksum(Tweak(q));
    var sp, sq := Summed(k, delta, sum, p), Summed(k, delta, sum, q);
    TagIs(k, delta, sum, p);
    TagIs(k, delta, sum, q);
    EncInjective(k, XorBlock(Triple(d), sp), XorBlock(Triple(d), sq));
    XorInjective(Triple(d), sp, sq);
    XorInjective(sum, XorBlock(cp, t), XorBlock(cq, t));
    XorComm(cp, t);
    XorComm(cq, t);
    XorInjective(t, cp, cq);
  }

  /** A change confined to one block of what the receiver sees changes the tag. */
  lemma OneBlockChangesTag(k: Cipher, delta: Block, sum: Block, p: Bytes, q: Bytes)
    requires k.Invertible() && |p| == |q| && DifferInOneBlock(Tweak(p), Tweak(q))
    ensures Seal(k, delta, sum, p).1 != Seal(k, delta, sum, q).1
  {
    SameTagExactly(k, delta, sum, p, q);
    OneBlockChangesChecksum(Tweak(p), Tweak(q));
  }

  // ---------------------------------------------------------------- the nonce

  /** Two nonces never share an offset at any block. */
  lemma OffsetsDiffer(k: Cipher, nonce: Block, other: Block, i: nat)
    requires k.Invertible()
    ensures Doubled(k.enc(nonce), i) == Doubled(k.enc(other), i) <==> nonce == other
  {
    EncInjective(k, nonce, other);
    DoubledInjective(k.enc(nonce), k.enc(other), i);
  }

  lemma NoTail(k: Cipher, d: Block)
    ensures PadTail(k, d, BLOCK_SIZE) == ZERO
  {
    assert FinalPad(k, d, 16)[16..] == [];
    hide FinalPad;
  }

  /** A message of whole blocks has a different tag under every nonce. */
  lemma NonceChangesTag(k: Cipher, nonce: Block, other: Block, sum: Block, p: Bytes)
    requires k.Invertible() && p != [] && |p| % 16 == 0
    ensures Seal(k, k.enc(nonce), sum, p).1 == Seal(k, k.enc(other), sum, p).1 <==> nonce == other
  {
    hide Seal, XorBlock, Triple, Tweak, PadTail, Doubled, Checksum;
    var n := BlockCount(|p|);
    var d, e := Doubled(k.enc(nonce), n), Doubled(k.enc(other), n);
    assert LastSize(|p|) == 16;
    NoTail(k, d);
    NoTail(k, e);
    var s := Summed(k, k.enc(nonce), sum, p);
    assert s == Summed(k, k.enc(other), sum, p);
    TagIs(k, k.enc(nonce), sum, p);
    TagIs(k, k.enc(other), sum, p);
    EncInjective(k, XorBlock(Triple(d), s), XorBlock(Triple(e), s));
    XorComm(Triple(d), s);
    XorComm(Triple(e), s);
    XorInjective(s, Triple(d), Triple(e));
    TriplesDiffer(d, e);
    OffsetsDiffer(k, nonce, other, n);
  }

  lemma TriplesDiffer(b: Block, c: Block)
    ensures Triple(b) == Triple(c) <==> b == c
  {
    TripleInjective(b, c);
  }
}
