/** What ciphertext and tag of the older OCB mode are, block by block, and what the tag tells apart. */
module OcbLaws {
  import opened Blocks
  import opened BlockSums
  import opened OcbCrypt

  // ---------------------------------------------------------------- ciphertext and checksum

  /** The checksum reached is that of the plaintext. */
  lemma {:induction false} SumIs(k: Cipher, l: Block, offset: Block, sum: Block, i: nat, p: Bytes)
    requires i > 0
    ensures SealFrom(k, l, offset, sum, i, p).sum == XorBlock(sum, Checksum(p))
    decreases |p|
  {
    hide XorBlock, Mask, Xor;
    if |p| > BLOCK_SIZE {
      var d := XorBlock(offset, Mask(l, i));
      SumIs(k, l, d, XorBlock(sum, p[..16]), i + 1, p[16..]);
      XorAssoc(sum, p[..16], Checksum(p[16..]));
    } else if p == [] {
      XorZero(sum);
      assert Pad([]) == ZERO;
    }
  }

  /** Every block of ciphertext but the last is made from its own plaintext block and its own offset alone. */
  lemma {:induction false} SealedBlock(k: Cipher, l: Block, start: Block, sum: Block, i: nat, p: Bytes, j: nat)
    requires i > 0 && 16 * j + 16 < |p|
    ensures Enciphers(k, Offset(start, l, i + j), p, SealFrom(k, l, Offset(start, l, i - 1), sum, i, p).out, j)
    decreases |p|
  {
    hide XorBlock, Mask, Enciphers, SealFrom;
    var d, x, q := Offset(start, l, i), p[..16], p[16..];
    SealStep(k, l, Offset(start, l, i - 1), sum, i, p);
    var c := SealFrom(k, l, d, XorBlock(sum, x), i + 1, q).out;
    XorComm(d, x);
    assert p == x + q;
    if j > 0 {
      SealedBlock(k, l, start, XorBlock(sum, x), i + 1, q, j - 1);
      EnciphersLater(k, Offset(start, l, i + j), x, q, XorBlock(k.enc(XorBlock(x, d)), d), c, j - 1);
    } else {
      FirstBlock(k, d, x, q, c);
    }
  }

  /** The last block, whole or not, is the plaintext under the encrypted offset. */
  lemma {:induction false} SealedEnd(k: Cipher, l: Block, start: Block, sum: Block, i: nat, p: Bytes)
    requires i > 0 && p != []
    ensures var at := LastStart(|p|);
      EndsWith(SealFrom(k, l, Offset(start, l, i - 1), sum, i, p).out, at, Xor(p[at..], k.enc(Offset(start, l, i + at / 16))))
    decreases |p|
  {
    hide XorBlock, Mask, Xor, SealFrom;
    var d, at := Offset(start, l, i), LastStart(|p|);
    if |p| > BLOCK_SIZE {
      hide Offset;
      var x, q := p[..16], p[16..];
      SealedEnd(k, l, start, XorBlock(sum, x), i + 1, q);
      OffsetStep(start, l, i);
      SealStep(k, l, Offset(start, l, i - 1), sum, i, p);
      assert LastStart(|q|) == at - 16 && p[at..] == q[at - 16..];
      var lead: Block, c := XorBlock(k.enc(XorBlock(d, x)), d), SealFrom(k, l, d, XorBlock(sum, x), i + 1, q).out;
      assert (lead + c)[at..] == c[at - 16..];
    } else {
      OneBlockSealed(k, l, Offset(start, l, i - 1), sum, i, p);
      assert p[0..] == p;
    }
  }

  lemma OffsetStep(start: Block, l: Block, i: nat)
    requires i > 0
    ensures Offset(start, l, i) == XorBlock(Offset(start, l, i - 1), Mask(l, i))
  {
  }

  lemma OneBlockSealed(k: Cipher, l: Block, offset: Block, sum: Block, i: nat, p: Bytes)
    requires i > 0 && 0 < |p| <= BLOCK_SIZE
    ensures SealFrom(k, l, offset, sum, i, p).out == Xor(p, k.enc(XorBlock(offset, Mask(l, i))))
  {
    hide XorBlock, Mask, Xor;
  }

  // ---------------------------------------------------------------- the tag and the plaintext

  function TagOf(k: Cipher, nonce: Bytes, p: Bytes, ad: Bytes): Block
    requires 1 <= |nonce| <= 15
  {
    Tag(k, SealFrom(k, k.enc(ZERO), Start(k, nonce), ZERO, 1, p), ad)
  }

  lemma TagOfEncrypted(k: Cipher, nonce: Bytes, p: Bytes, ad: Bytes)
    requires k.Invertible() && 1 <= |nonce| <= 15
    ensures var e := Encrypted(k, nonce, p, ad); e.Ok? && |e.bytes| == |p| + 16 && e.bytes[|p|..] == TagOf(k, nonce, p, ad)
  {
    hide SealFrom, OpenFrom, Start, Tag;
    OpenAfterSeal(k, k.enc(ZERO), Start(k, nonce), ZERO, 1, p);
  }

  /** Two messages of one length under one nonce and the same associated data have the same tag exactly when their
      blocks have the same sum. */
  lemma SameTagExactly(k: Cipher, nonce: Bytes, p: Bytes, q: Bytes, ad: Bytes)
    requires k.Invertible() && 1 <= |nonce| <= 15 && |p| == |q|
    ensures TagOf(k, nonce, p, ad) == TagOf(k, nonce, q, ad) <==> Checksum(p) == Checksum(q)
  {
    hide SealFrom, AdSum, XorBlock, Start, Checksum, Offset;
    var l, start := k.enc(ZERO), Start(k, nonce);
    var r, s := SealFrom(k, l, start, ZERO, 1, p), SealFrom(k, l, start, ZERO, 1, q);
    SumIs(k, l, start, ZERO, 1, p);
    SumIs(k, l, start, ZERO, 1, q);
    StartOffset(start, l);
    LastOffsetOf(k, l, start, ZERO, 1, p);
    LastOffsetOf(k, l, start, ZERO, 1, q);
    var a := AdSum(k, l, ZERO, ZERO, 1, ad);
    var u, v := k.enc(XorBlock(r.offset, r.sum)), k.enc(XorBlock(s.offset, s.sum));
    XorComm(u, a);
    XorComm(v, a);
    XorInjective(a, u, v);
    EncInjective(k, XorBlock(r.offset, r.sum), XorBlock(s.offset, s.sum));
    XorInjective(r.offset, r.sum, s.sum);
    XorInjective(ZERO, Checksum(p), Checksum(q));
  }

  lemma StartOffset(start: Block, l: Block)
    ensures Offset(start, l, 0) == start
  {
  }

  /** A change confined to one block of the plaintext changes the tag. */
  lemma OneBlockChangesTag(k: Cipher, nonce: Bytes, p: Bytes, q: Bytes, ad: Bytes)
    requires k.Invertible() && 1 <= |nonce| <= 15 && DifferInOneBlock(p, q)
    ensures TagOf(k, nonce, p, ad) != TagOf(k, nonce, q, ad)
  {
    OneBlockChangesChecksum(p, q);
    SameTagExactly(k, nonce, p, q, ad);
  }

  // ---------------------------------------------------------------- the tag and the associated data

  /** Associated data as blocks, a short last one marked. */
  function AdBlocks(ad: Bytes): seq<Block> {
    if ad == [] then [] else if |ad| < BLOCK_SIZE then [Marked(ad)] else [ad[..16]] + AdBlocks(ad[16..])
  }

  /** Each block is encrypted with its own offset, and the results are added. */
  function AdTotal(k: Cipher, l: Block, blocks: seq<Block>, i: nat): Block
    decreases |blocks|
  {
    if blocks == [] then ZERO
    else XorBlock(k.enc(XorBlock(blocks[0], Offset(ZERO, l, i))), AdTotal(k, l, blocks[1..], i + 1))
  }

  lemma {:induction false} AdSumIs(k: Cipher, l: Block, sum: Block, i: nat, ad: Bytes)
    requires i > 0
    ensures AdSum(k, l, Offset(ZERO, l, i - 1), sum, i, ad) == XorBlock(sum, AdTotal(k, l, AdBlocks(ad), i))
    decreases |ad|
  {
    hide XorBlock, Mask, Marked, ZERO;
    if ad == [] {
      AddZero(sum);
    } else {
      var whole := |ad| >= BLOCK_SIZE;
      var block := if whole then ad[..16] else Marked(ad);
      var rest := if whole then ad[16..] else [];
      var term := k.enc(XorBlock(block, Offset(ZERO, l, i)));
      AdSumIs(k, l, XorBlock(sum, term), i + 1, rest);
      assert AdBlocks(ad) == [block] + AdBlocks(rest) && AdBlocks(ad)[1..] == AdBlocks(rest);
      XorAssoc(sum, term, AdTotal(k, l, AdBlocks(rest), i + 1));
    }
  }

  lemma AddZero(sum: Block)
    ensures XorBlock(sum, ZERO) == sum
  {
    XorZero(sum);
  }

  lemma {:induction false} AdTotalDiffers(k: Cipher, l: Block, a: seq<Block>, b: seq<Block>, i: nat, j: nat)
    requires k.Invertible() && |a| == |b| && j < |a| && a[j] != b[j]
    requires forall m | 0 <= m < |a| && m != j :: a[m] == b[m]
    ensures AdTotal(k, l, a, i) != AdTotal(k, l, b, i)
    decreases |a|
  {
    hide XorBlock, Offset;
    var o := Offset(ZERO, l, i);
    var ta, tb := k.enc(XorBlock(a[0], o)), k.enc(XorBlock(b[0], o));
    var ra, rb := AdTotal(k, l, a[1..], i + 1), AdTotal(k, l, b[1..], i + 1);
    if j == 0 {
      assert a[1..] == b[1..];
      XorComm(a[0], o);
      XorComm(b[0], o);
      XorInjective(o, a[0], b[0]);
      EncInjective(k, XorBlock(a[0], o), XorBlock(b[0], o));
      XorComm(ta, ra);
      XorComm(tb, ra);
      XorInjective(ra, ta, tb);
    } else {
      AdTotalDiffers(k, l, a[1..], b[1..], i + 1, j - 1);
      XorInjective(ta, ra, rb);
    }
  }

  /** So does a change confined to one block of the associated data. */
  lemma OneAdBlockChangesTag(k: Cipher, nonce: Bytes, p: Bytes, ad: Bytes, other: Bytes, j: nat)
    requires k.Invertible() && 1 <= |nonce| <= 15
    requires |AdBlocks(ad)| == |AdBlocks(other)| && j < |AdBlocks(ad)| && AdBlocks(ad)[j] != AdBlocks(other)[j]
    requires forall m | 0 <= m < |AdBlocks(ad)| && m != j :: AdBlocks(ad)[m] == AdBlocks(other)[m]
    ensures TagOf(k, nonce, p, ad) != TagOf(k, nonce, p, other)
  {
    hide SealFrom, AdSum, XorBlock, Start, AdTotal, AdBlocks, Offset;
    var l := k.enc(ZERO);
    StartOffset(ZERO, l);
    AdSumIs(k, l, ZERO, 1, ad);
    AdSumIs(k, l, ZERO, 1, other);
    AdTotalDiffers(k, l, AdBlocks(ad), AdBlocks(other), 1, j);
    var a, b := AdTotal(k, l, AdBlocks(ad), 1), AdTotal(k, l, AdBlocks(other), 1);
    XorInjective(ZERO, a, b);
    var r := SealFrom(k, l, Start(k, nonce), ZERO, 1, p);
    XorInjective(k.enc(XorBlock(r.offset, r.sum)), XorBlock(ZERO, a), XorBlock(ZERO, b));
  }

  // ---------------------------------------------------------------- the nonce

  /** Nonces of one length start from the same offset exactly when the part of their encryption that is kept,
      as many bytes as the nonce has, is the same. */
  lemma SameStartExactly(k: Cipher, nonce: Bytes, other: Bytes)
    requires 1 <= |nonce| == |other| <= 15
    ensures Start(k, nonce) == Start(k, other) <==> k.enc(Pad(nonce))[..|nonce|] == k.enc(Pad(other))[..|nonce|]
  {
    var a, b := k.enc(Pad(nonce))[..|nonce|], k.enc(Pad(other))[..|nonce|];
    if Pad(a) == Pad(b) {
      PadInjective(a, b);
    }
  }

  /** Every offset depends on the start: two starts give different offsets at every block. */
  lemma OffsetTellsStart(start: Block, other: Block, l: Block, i: nat)
    ensures Offset(start, l, i) == Offset(other, l, i) <==> start == other
  {
    hide XorBlock, Offset, Combine, Gray;
    OffsetIsGray(start, l, i);
    OffsetIsGray(other, l, i);
    var c := Combine(l, Gray(i));
    XorComm(start, c);
    XorComm(other, c);
    XorInjective(c, start, other);
  }

  /** The same message has the same tag under two nonces exactly when they start from the same offset. */
  lemma SameTagUnderNonces(k: Cipher, nonce: Bytes, other: Bytes, p: Bytes, ad: Bytes)
    requires k.Invertible() && 1 <= |nonce| <= 15 && 1 <= |other| <= 15
    ensures TagOf(k, nonce, p, ad) == TagOf(k, other, p, ad) <==> Start(k, nonce) == Start(k, other)
  {
    hide SealFrom, AdSum, XorBlock, Start, Checksum, Offset;
    var l, start, start' := k.enc(ZERO), Start(k, nonce), Start(k, other);
    var r, s := SealFrom(k, l, start, ZERO, 1, p), SealFrom(k, l, start', ZERO, 1, p);
    SumIs(k, l, start, ZERO, 1, p);
    SumIs(k, l, start', ZERO, 1, p);
    StartOffset(start, l);
    StartOffset(start', l);
    LastOffsetOf(k, l, start, ZERO, 1, p);
    LastOffsetOf(k, l, start', ZERO, 1, p);
    OffsetTellsStart(start, start', l, (|p| + 15) / 16);
    var a := AdSum(k, l, ZERO, ZERO, 1, ad);
    var u, v := k.enc(XorBlock(r.offset, r.sum)), k.enc(XorBlock(s.offset, s.sum));
    XorComm(u, a);
    XorComm(v, a);
    XorInjective(a, u, v);
    EncInjective(k, XorBlock(r.offset, r.sum), XorBlock(s.offset, s.sum));
    XorComm(r.offset, r.sum);
    XorComm(s.offset, s.sum);
    XorInjective(r.sum, r.offset, s.offset);
  }
}
