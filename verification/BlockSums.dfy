/** Messages as blocks: their checksum, which is the sum of all blocks with the last one zero-padded, and what it means
    to encrypt them one by one. */
module BlockSums {
  import opened Blocks

  function Checksum(p: Bytes): Block
    decreases |p|
  {
    if |p| > BLOCK_SIZE then XorBlock(p[..16], Checksum(p[16..])) else Pad(p)
  }

  /** `p` and `q` are equally long and differ, but only inside the block that starts at `i`. */
  predicate DifferIn(p: Bytes, q: Bytes, i: nat) {
    && |p| == |q| && p != q && i % 16 == 0 && i < |p|
    && p[..i] == q[..i] && (i + 16 < |p| ==> p[i + 16..] == q[i + 16..])
  }

  predicate DifferInOneBlock(p: Bytes, q: Bytes) {
    exists i :: 0 <= i < |p| && DifferIn(p, q, i)
  }

  lemma PadInjective(p: Bytes, q: Bytes)
    requires |p| == |q| <= BLOCK_SIZE && Pad(p) == Pad(q)
    ensures p == q
  {
    assert p == Pad(p)[..|p|] && q == Pad(q)[..|p|];
  }

  lemma {:induction false} DifferInSums(p: Bytes, q: Bytes, i: nat)
    requires DifferIn(p, q, i)
    ensures Checksum(p) != Checksum(q)
    decreases |p|
  {
    hide XorBlock, Pad;
    if |p| <= BLOCK_SIZE {
      if Pad(p) == Pad(q) {
        PadInjective(p, q);
      }
    } else if i == 0 {
      assert p == p[..16] + p[16..] && q == q[..16] + q[16..];
      assert p[16..] == q[16..] && p[..16] != q[..16];
      XorComm(p[..16], Checksum(p[16..]));
      XorComm(q[..16], Checksum(q[16..]));
      XorInjective(Checksum(p[16..]), p[..16], q[..16]);
    } else {
      assert p[..16] == p[..i][..16] && q[..16] == q[..i][..16];
      assert p == p[..16] + p[16..] && q == q[..16] + q[16..];
      assert p[16..][..i - 16] == p[..i][16..] && q[16..][..i - 16] == q[..i][16..];
      if i + 16 < |p| {
        assert p[16..][i..] == p[i + 16..] && q[16..][i..] == q[i + 16..];
      }
      DifferInSums(p[16..], q[16..], i - 16);
      XorInjective(p[..16], Checksum(p[16..]), Checksum(q[16..]));
    }
  }

  /** A change confined to one block changes the checksum. */
  lemma OneBlockChangesChecksum(p: Bytes, q: Bytes)
    requires DifferInOneBlock(p, q)
    ensures Checksum(p) != Checksum(q)
  {
    var i :| 0 <= i < |p| && DifferIn(p, q, i);
    DifferInSums(p, q, i);
  }

  // ---------------------------------------------------------------- ciphertext, block by block

  function BlockAt(s: Bytes, i: nat): Block
    requires 16 * i + 16 <= |s|
  {
    s[16 * i..16 * i + 16]
  }

  /** Block `i` of `c` is that of `x`, encrypted between two additions of the offset `d`. */
  predicate Enciphers(k: Cipher, d: Block, x: Bytes, c: Bytes, i: nat) {
    16 * i + 16 <= |x| && 16 * i + 16 <= |c| && BlockAt(c, i) == XorBlock(k.enc(XorBlock(BlockAt(x, i), d)), d)
  }

  lemma EnciphersLater(k: Cipher, d: Block, head: Block, x: Bytes, lead: Block, c: Bytes, i: nat)
    requires Enciphers(k, d, x, c, i)
    ensures Enciphers(k, d, head + x, lead + c, i + 1)
  {
    hide XorBlock;
    assert BlockAt(head + x, i + 1) == BlockAt(x, i) && BlockAt(lead + c, i + 1) == BlockAt(c, i);
  }

  lemma FirstBlock(k: Cipher, d: Block, x: Block, rest: Bytes, c: Bytes)
    ensures Enciphers(k, d, x + rest, XorBlock(k.enc(XorBlock(x, d)), d) + c, 0)
  {
    hide XorBlock;
    assert (x + rest)[0..16] == x;
    var lead := XorBlock(k.enc(XorBlock(x, d)), d);
    assert (lead + c)[0..16] == lead;
  }

  /** Where the last block of `n` bytes starts. */
  function LastStart(n: nat): (i: nat)
    ensures i <= n <= i + 16 && (n > 0 ==> i < n) && i % 16 == 0
  {
    if n <= 16 then 0 else (n - 1) / 16 * 16
  }

  predicate EndsWith(c: Bytes, i: nat, end: Bytes) {
    i <= |c| && c[i..] == end
  }
}
