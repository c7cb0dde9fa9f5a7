/** Byte strings, 16-byte blocks and the block cipher, shared by both OCB variants. */
module Blocks {

  const BLOCK_SIZE := 16

  type Bytes = seq<bv8>
  type Block = b: Bytes | |b| == BLOCK_SIZE witness Zeros(BLOCK_SIZE)

  /** AES under one fixed key: what the source calls `block`. */
  datatype Cipher = Cipher(enc: Block -> Block, dec: Block -> Block) {
    ghost predicate Invertible() {
      forall x: Block :: dec(enc(x)) == x
    }
  }

  function Zeros(n: nat): (z: Bytes)
    ensures |z| == n && forall i | 0 <= i < n :: z[i] == 0
  {
    seq(n, _ => 0)
  }

  const ZERO: Block := Zeros(BLOCK_SIZE)

  function XorByte(x: bv8, y: bv8): bv8 {
    x ^ y
  }

  /** Byte-wise exclusive or of `a` with the first |a| bytes of `b`. */
  function Xor(a: Bytes, b: Bytes): (r: Bytes)
    requires |a| <= |b|
    ensures |r| == |a|
    ensures forall i | 0 <= i < |a| :: r[i] == XorByte(a[i], b[i])
  {
    seq(|a|, i requires 0 <= i < |a| => XorByte(a[i], b[i]))
  }

  function XorBlock(a: Block, b: Block): Block
  {
    Xor(a, b)
  }

  /** Zero-pads a short string on the right to a whole block. */
  function Pad(s: Bytes): (r: Block)
    requires |s| <= BLOCK_SIZE
    ensures s <= r && forall i | |s| <= i < BLOCK_SIZE :: r[i] == 0
  {
    s + Zeros(BLOCK_SIZE - |s|)
  }

  // One byte of a left shift by one bit: `y` is the byte to the right of `x`.
  function ShiftByte(x: bv8, y: bv8): bv8 {
    (x << 1) | (y >> 7)
  }

  // The last byte of a doubling: the bit leaving `top` comes back as 0x87.
  function ShiftLast(x: bv8, top: bv8): bv8 {
    (x << 1) ^ (((top >> 7) & 1) * 0x87)
  }

  /** Doubling in GF(2^128), section 2 of RFC 7253. */
  function Double(b: Block): (r: Block)
    ensures forall i | 0 <= i < 15 :: r[i] == ShiftByte(b[i], b[i + 1])
    ensures r[15] == ShiftLast(b[15], b[0])
  {
    seq(15, i requires 0 <= i < 15 => ShiftByte(b[i], b[i + 1])) + [ShiftLast(b[15], b[0])]
  }

  function Doubled(l: Block, n: nat): Block
    decreases n
  {
    if n == 0 then l else Doubled(Double(l), n - 1)
  }

  lemma DoubledStep(l: Block, n: nat)
    ensures Doubled(l, n) == if n == 0 then l else Doubled(Double(l), n - 1)
  {
  }

  // Laws of exclusive or that the proofs name.

  lemma XorCancel(a: Bytes, b: Bytes)
    requires |a| <= |b|
    ensures Xor(Xor(a, b), b) == a
  {
  }

  lemma XorZero(a: Block)
    ensures XorBlock(a, ZERO) == a
  {
  }

  lemma XorAssoc(a: Block, b: Block, c: Block)
    ensures XorBlock(XorBlock(a, b), c) == XorBlock(a, XorBlock(b, c))
  {
  }

  lemma XorComm(a: Block, b: Block)
    ensures XorBlock(a, b) == XorBlock(b, a)
  {
  }

  lemma XorInjective(a: Block, b: Block, c: Block)
    ensures XorBlock(a, b) == XorBlock(a, c) <==> b == c
  {
    XorComm(a, b);
    XorComm(a, c);
    XorCancel(b, a);
    XorCancel(c, a);
  }

  lemma EncInjective(k: Cipher, a: Block, b: Block)
    requires k.Invertible()
    ensures k.enc(a) == k.enc(b) <==> a == b
  {
    assert k.dec(k.enc(a)) == a && k.dec(k.enc(b)) == b;
  }
}
