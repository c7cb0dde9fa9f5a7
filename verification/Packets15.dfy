/** What a packet of the native UDP mode is, byte by byte, in terms of the plaintext and the counter. */
module Packets15 {
  import opened Blocks
  import opened BlockSums
  import opened Iv
  import opened Ocb15
  import opened Ocb15Laws
  import opened Crypt15

  /** The offset of block `i`, counting from 0: the encrypted counter doubled i + 1 times. */
  function OffsetAt(k: Cipher, iv: nat, i: nat): Block {
    Doubled(k.enc(Nonce(iv)), i + 1)
  }

  /** A packet is the first byte of its counter, three bytes of its tag, and the ciphertext, as long as the
      plaintext. */
  lemma PacketParts(k: Cipher, iv: nat, p: Bytes)
    requires k.Invertible() && iv < IV_SPACE
    ensures var (w, s) := (SealPacket(k, iv, p), Seal(k, k.enc(Nonce(iv)), ZERO, p));
            && |w| == |p| + 4 && ByteVal(w[0]) == iv % 256 && w[1..4] == s.1[..3] && w[4..] == s.0
  {
    hide Seal, ByteVal, Nonce, Open, Flagged, Tweak;
    NonceValue(iv);
    OpenAfterSeal(k, k.enc(Nonce(iv)), ZERO, p);
  }

  /** Its tag bytes: three times the last offset and the checksum, encrypted. */
  lemma PacketTag(k: Cipher, iv: nat, p: Bytes)
    requires k.Invertible() && iv < IV_SPACE
    ensures SealPacket(k, iv, p)[1..4]
         == k.enc(XorBlock(Triple(OffsetAt(k, iv, BlockCount(|p|) - 1)), Summed(k, k.enc(Nonce(iv)), ZERO, p)))[..3]
  {
    hide SealPacket, Seal, Nonce, Summed, Triple, XorBlock, ByteVal;
    PacketParts(k, iv, p);
    TagIs(k, k.enc(Nonce(iv)), ZERO, p);
  }

  /** Its ciphertext: each full block but the last enciphered under its own offset of this counter, the last block
      under the pad that this counter makes for its length. */
  lemma PacketBody(k: Cipher, iv: nat, p: Bytes, i: nat)
    requires k.Invertible() && iv < IV_SPACE
    ensures 16 * i + 16 < |p| ==> Enciphers(k, OffsetAt(k, iv, i), Tweak(p), SealPacket(k, iv, p)[4..], i)
    ensures var at := LastStart(|p|);
            var pad := k.enc(XorBlock(LengthBlock(|p| - at), OffsetAt(k, iv, BlockCount(|p|) - 1)));
            EndsWith(SealPacket(k, iv, p)[4..], at, Xor(p[at..], pad))
  {
    hide SealPacket, Seal, Nonce, Tweak, XorBlock, Xor, ByteVal, Enciphers, EndsWith, LengthBlock;
    PacketParts(k, iv, p);
    SealedEnd(k, k.enc(Nonce(iv)), ZERO, p);
    if 16 * i + 16 < |p| {
      SealedBlock(k, k.enc(Nonce(iv)), ZERO, p, i);
    }
  }

  /** Packets with different counters share an offset at no block. */
  lemma CountersDiffer(k: Cipher, iv: nat, other: nat, i: nat)
    requires k.Invertible() && iv < IV_SPACE && other < IV_SPACE
    ensures OffsetAt(k, iv, i) == OffsetAt(k, other, i) <==> iv == other
  {
    hide Nonce, Doubled, ByteVal;
    NonceValue(iv);
    NonceValue(other);
    OffsetsDiffer(k, Nonce(iv), Nonce(other), i + 1);
  }
}
