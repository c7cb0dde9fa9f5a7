/** Mumble 1.5 native UDP encryption: one byte of a 128-bit counter per packet, and a replay table. */
module Crypt15 {
  import opened Blocks
  import opened Iv
  import opened Numbers
  import opened Ocb15

  const HEADER_SIZE := 4

  datatype Error = InvalidKey | NotInitialized | TooShort | TooFarOff | Replay | XexForgery | BadTag
  datatype Result = Ok(plain: Bytes) | Fail(error: Error)

  // ---------------------------------------------------------------- specification

  /** The counter a packet is tried under; `restore` puts the old counter back afterwards. */
  datatype Attempt = Try(iv: nat, restore: bool, checked: bool) | TooFar

  function Signed(b: nat, low: nat): int {
    var diff: int := b - low;
    if diff < -128 then diff + 256 else if diff > 128 then diff - 256 else diff
  }

  /** The branches of decrypt15 as arithmetic on the whole counter. */
  function AttemptIV(d: nat, b: nat): (a: Attempt)
    requires d < IV_SPACE && b < 256
    ensures a.Try? ==> a.iv < IV_SPACE
  {
    var low := d % 256;
    var diff := Signed(b, low);
    if b == (low + 1) % 256 then Try((d + 1) % IV_SPACE, false, false)
    else if b < low && -30 < diff < 0 then Try(d + diff, true, true)
    else if b > low && -30 < diff < 0 then Try(d + diff + 255, true, true)
    else if diff > 0 then Try((d + diff) % IV_SPACE, false, true)
    else TooFar
  }

  function Nonce(iv: nat): Block {
    ToBytes(iv, 16)
  }

  /** What the replay table stores: the second byte of the counter. */
  function Mark(iv: nat): bv8 {
    ToByte(iv / 256 % 256)
  }

  datatype Receiver = Receiver(iv: nat, history: Bytes) {
    predicate Valid() {
      iv < IV_SPACE && |history| == 256
    }
  }

  /** Does a packet carry the tag of its ciphertext under this counter? */
  function OpenPacket(k: Cipher, iv: nat, packet: Bytes): Result
    requires |packet| >= HEADER_SIZE
  {
    match Open(k, k.enc(Nonce(iv)), ZERO, packet[4..])
    case Forgery => Fail(XexForgery)
    case Opened(p, tag) => if tag[..3] == packet[1..4] then Ok(p) else Fail(BadTag)
  }

  function Receive(k: Cipher, r: Receiver, packet: Bytes): (Receiver, Result)
    requires r.Valid()
  {
    if |packet| < HEADER_SIZE then (r, Fail(TooShort))
    else
      var b := ByteVal(packet[0]);
      match AttemptIV(r.iv, b)
      case TooFar => (r, Fail(TooFarOff))
      case Try(v, restore, checked) =>
        if checked && r.history[b] != 0 && r.history[b] == Mark(v) then (r, Fail(Replay))
        else
          var o := OpenPacket(k, v, packet);
          if o.Fail? then (r, o)
          else (Receiver(if restore then r.iv else v, r.history[b := Mark(v)]), o)
  }

  /** The datagram sealed under counter `iv`. */
  function SealPacket(k: Cipher, iv: nat, plaintext: Bytes): (p: Bytes)
    ensures |p| >= HEADER_SIZE
  {
    var (c, tag) := Seal(k, k.enc(Nonce(iv)), ZERO, plaintext);
    [Nonce(iv)[0]] + tag[..3] + c
  }

  // ---------------------------------------------------------------- counter bytes

  lemma NonceBytes(s: Block)
    ensures Value(s) < IV_SPACE && Nonce(Value(s)) == s
    ensures ByteVal(s[0]) == Value(s) % 256 && s[1] == Mark(Value(s))
  {
    hide ByteVal, ToByte, Next, Pow256;
    ValueBound(s);
    IvSpace();
    BytesOfValue(s);
    Unfold(s);
    Unfold(s[1..]);
    ToByteOfVal(s[1]);
  }

  lemma NonceValue(iv: nat)
    requires iv < IV_SPACE
    ensures Value(Nonce(iv)) == iv && ByteVal(Nonce(iv)[0]) == iv % 256
  {
    hide ByteVal, ToByte, Next, Pow256, Value;
    IvSpace();
    ValueOfBytes(iv, 16);
    NonceBytes(Nonce(iv));
  }

  lemma SetLow(s: Block, b: bv8)
    ensures Value(s[0 := b]) == Value(s) - ByteVal(s[0]) + ByteVal(b)
  {
    hide ByteVal, Value;
    Unfold(s);
    Unfold(s[0 := b]);
    assert s[0 := b][1..] == s[1..];
  }

  method SetLowByte(iv: array<bv8>, b: bv8)
    requires iv.Length == BLOCK_SIZE
    modifies iv
    ensures Value(iv[..]) == Value(old(iv[..])) - ByteVal(old(iv[0])) + ByteVal(b)
    ensures iv[0] == b
  {
    hide ByteVal, Value;
    SetLow(iv[..], b);
    iv[0] := b;
    assert iv[..] == old(iv[..])[0 := b];
  }

  lemma WrapIsMod(v: nat)
    requires v < 2 * IV_SPACE
    ensures Wrap(v, IV_SPACE) == v % IV_SPACE
  {
  }

  lemma HighWrap(d: nat, low: nat, b: nat)
    requires d < IV_SPACE && low == d % 256 && b < low
    ensures Wrap(d + 256, IV_SPACE) - low + b == (d + 256 + b - low) % IV_SPACE
    ensures Wrap(d + 256, IV_SPACE) % 256 == low
  {
    if d + 256 >= IV_SPACE {
      assert d - low == IV_SPACE - 256;
    }
  }

  lemma InOrder(d: nat)
    requires d < IV_SPACE
    ensures Wrap(d + 1, IV_SPACE) == (d + 1) % IV_SPACE
    ensures d % 256 < 255 ==> (d + 1) % IV_SPACE == d + 1
    ensures d % 256 == 255 ==> (d + 1) % IV_SPACE % 256 == 0
  {
  }

  // The low byte is next in line: with or without a carry, the counter is one more.
  method MoveInOrder(iv: array<bv8>, ivByte: bv8)
    requires iv.Length == BLOCK_SIZE && ivByte == Next(iv[0])
    modifies iv
    ensures Value(old(iv[..])) < IV_SPACE
    ensures Value(iv[..]) == (Value(old(iv[..])) + 1) % IV_SPACE
  {
    hide ByteVal, Next, Value, Pow256, Wrap;
    NonceBytes(iv[..]);
    IvSpace();
    NextValue(iv[0]);
    InOrder(Value(iv[..]));
    if ByteVal(ivByte) < ByteVal(iv[0]) {
      AdvanceIV(iv);
      NonceBytes(iv[..]);
    }
    SetLowByte(iv, ivByte);
  }

  // Missed packets, past the end of the low byte: the high bytes advance by one.
  method MoveAcrossWrap(iv: array<bv8>, ivByte: bv8)
    requires iv.Length == BLOCK_SIZE && ByteVal(ivByte) < ByteVal(iv[0])
    modifies iv
    ensures Value(old(iv[..])) < IV_SPACE
    ensures Value(iv[..]) == (Value(old(iv[..])) + 256 + ByteVal(ivByte) - ByteVal(old(iv[0]))) % IV_SPACE
  {
    hide ByteVal, Next, Value, Pow256, Wrap;
    ghost var d := Value(iv[..]);
    NonceBytes(iv[..]);
    IvSpace();
    HighWrap(d, ByteVal(iv[0]), ByteVal(ivByte));
    AdvanceIVHighBytes(iv);
    SetLowByte(iv, ivByte);
  }

  lemma AttemptCases(d: nat, b: nat)
    requires d < IV_SPACE && b < 256
    ensures var low := d % 256;
            var diff, a := Signed(b, low), AttemptIV(d, b);
            && (b == (low + 1) % 256 ==> a == Try((d + 1) % IV_SPACE, false, false))
            && (b != (low + 1) % 256 ==>
                && (b < low && -30 < diff < 0 ==> d + diff >= 0 && a == Try(d - low + b, true, true))
                && (b > low && -30 < diff < 0 ==> a == Try(d - low + b - 1, true, true))
                && (b > low && diff > 0 ==> a == Try(d - low + b, false, true))
                && (b < low && diff > 0 ==> a == Try((d + 256 + b - low) % IV_SPACE, false, true))
                && (b == low || diff <= -30 ==> a == TooFar))
            && (b != low ==> diff != 0)
  {
    if b > d % 256 {
      Ahead(d, b);
    }
  }

  lemma Ahead(d: nat, b: nat)
    requires d < IV_SPACE && d % 256 < b < 256
    ensures d - d % 256 + b < IV_SPACE && (d + (b - d % 256)) % IV_SPACE == d + (b - d % 256)
  {
    var high, top := d / 256, IV_SPACE / 256;
    assert d == 256 * high + d % 256 && high < top;
    assert 256 * high + 256 <= 256 * top;
  }

  /** Moves the counter the way the received byte asks for; byte operations, arithmetic meaning. */
  method MoveIV(iv: array<bv8>, ivByte: bv8) returns (moved: bool, restore: bool, checked: bool)
    requires iv.Length == BLOCK_SIZE
    modifies iv
    ensures Value(old(iv[..])) < IV_SPACE
    ensures match AttemptIV(Value(old(iv[..])), ByteVal(ivByte))
            case Try(v, r, c) => moved && restore == r && checked == c && Value(iv[..]) == v
            case TooFar => !moved && iv[..] == old(iv[..])
  {
    hide ByteVal, Next, Value, Pow256, Wrap, AttemptIV, Signed;
    NonceBytes(iv[..]);
    NextValue(iv[0]);
    ghost var a := AttemptIV(Value(iv[..]), ByteVal(ivByte));
    AttemptCases(Value(iv[..]), ByteVal(ivByte));
    var b: int, low: int := ByteVal(ivByte), ByteVal(iv[0]);
    if Next(iv[0]) == ivByte {
      MoveInOrder(iv, ivByte);
      assert a == Try(Value(iv[..]), false, false);
      return true, false, false;
    }
    if b == (low + 1) % 256 {
      SameByte(Next(iv[0]), ivByte);
    }
    var diff := Signed(b, low);
    if b < low && diff > -30 && diff < 0 {
      SetLowByte(iv, ivByte);
      assert a == Try(Value(iv[..]), true, true);
      return true, true, true;
    } else if b > low && diff > -30 && diff < 0 {
      SetLowByte(iv, ivByte);
      BackupIV(iv);
      assert a == Try(Value(iv[..]), true, true);
      return true, true, true;
    } else if b > low && diff > 0 {
      SetLowByte(iv, ivByte);
      assert a == Try(Value(iv[..]), false, true);
      return true, false, true;
    } else if b < low && diff > 0 {
      MoveAcrossWrap(iv, ivByte);
      assert a == Try(Value(iv[..]), false, true);
      return true, false, true;
    } else {
      assert a == TooFar;
      return false, false, false;
    }
  }

  lemma SealPacketBytes(k: Cipher, iv: Block, plaintext: Bytes)
    ensures var (c, tag) := Seal(k, k.enc(iv), ZERO, plaintext);
            SealPacket(k, Value(iv), plaintext) == [iv[0]] + tag[..3] + c
  {
    hide Value, ByteVal, Next, Seal;
    NonceBytes(iv);
  }

  // `Receive`, told apart by how the counter moves.
  lemma ReceiveCases(k: Cipher, r: Receiver, packet: Bytes, a: Attempt)
    requires r.Valid() && |packet| >= HEADER_SIZE && a == AttemptIV(r.iv, ByteVal(packet[0]))
    ensures a.TooFar? ==> Receive(k, r, packet) == (r, Fail(TooFarOff))
    ensures a.Try? ==>
              var b := ByteVal(packet[0]);
              Receive(k, r, packet)
              == if a.checked && r.history[b] != 0 && r.history[b] == Mark(a.iv) then (r, Fail(Replay))
                 else match OpenPacket(k, a.iv, packet)
                      case Fail(e) => (r, Fail(e))
                      case Ok(p) => (Receiver(if a.restore then r.iv else a.iv, r.history[b := Mark(a.iv)]), Ok(p))
  {
    hide ByteVal, AttemptIV, OpenPacket, Mark;
  }

  /** OpenPacket on counter bytes: the check of decrypt15 on the tag's first three bytes. */
  method OpenBytes(k: Cipher, iv: Block, packet: Bytes) returns (r: Result)
    requires |packet| >= HEADER_SIZE
    ensures r == OpenPacket(k, Value(iv), packet)
  {
    hide Value, ByteVal, Next, Open;
    NonceBytes(iv);
    var answer := Decrypt(k, iv, packet[4..]);
    if answer.Forgery? {
      return Fail(XexForgery);
    }
    if answer.tag[..3] != packet[1..4] {
      return Fail(BadTag);
    }
    return Ok(answer.plain);
  }

  // ---------------------------------------------------------------- the state object

  class CryptState15 {
    const aes: Block -> Cipher
    const key: array<bv8>
    const encryptIV: array<bv8>
    const decryptIV: array<bv8>
    const history: array<bv8>
    var initialized: bool

    ghost predicate Valid()
      reads this
    {
      && key.Length == encryptIV.Length == decryptIV.Length == BLOCK_SIZE && history.Length == 256
      && key != encryptIV && key != decryptIV && key != history
      && encryptIV != decryptIV && encryptIV != history && decryptIV != history
    }

    ghost function Receiving(): (r: Receiver)
      requires Valid()
      reads this, decryptIV, history
    {
      Receiver(Value(decryptIV[..]), history[..])
    }

    ghost function Sending(): nat
      requires Valid()
      reads this, encryptIV
    {
      Value(encryptIV[..])
    }

    function CipherOf(): Cipher
      requires Valid()
      reads this, key
    {
      aes(key[..])
    }

    constructor (aes: Block -> Cipher)
      ensures Valid() && !initialized && this.aes == aes
      ensures history[..] == Zeros(256)
      ensures fresh(key) && fresh(encryptIV) && fresh(decryptIV) && fresh(history)
    {
      this.aes := aes;
      key := new bv8[16](_ => 0);
      encryptIV := new bv8[16](_ => 0);
      decryptIV := new bv8[16](_ => 0);
      history := new bv8[256](_ => 0);
      initialized := false;
    }

    /** Installs a key and both start counters; the replay table is left as it was. */
    method Setup15(newKey: Bytes, clientNonce: Bytes, serverNonce: Bytes) returns (ok: bool)
      requires Valid()
      modifies this, key, encryptIV, decryptIV
      ensures Valid()
      ensures ok == (|newKey| == 16 && |clientNonce| == 16 && |serverNonce| == 16)
      ensures ok ==> initialized && key[..] == newKey && encryptIV[..] == clientNonce && decryptIV[..] == serverNonce
      ensures !ok ==> initialized == old(initialized) && key[..] == old(key[..])
                      && encryptIV[..] == old(encryptIV[..]) && decryptIV[..] == old(decryptIV[..])
    {
      if |newKey| != 16 || |clientNonce| != 16 || |serverNonce| != 16 {
        return false;
      }
      CopyInto(key, newKey);
      CopyInto(encryptIV, clientNonce);
      CopyInto(decryptIV, serverNonce);
      initialized := true;
      return true;
    }

    /** Seals the plaintext under the next counter. */
    method Encrypt15(plaintext: Bytes) returns (r: Result)
      requires Valid()
      modifies encryptIV
      ensures !initialized ==> r == Fail(NotInitialized) && encryptIV[..] == old(encryptIV[..])
      ensures initialized ==> Sending() == (old(Sending()) + 1) % IV_SPACE
                              && r == Ok(SealPacket(CipherOf(), Sending(), plaintext))
    {
      hide Value, Next, ByteVal, Pow256, Wrap, SealPacket, Seal;
      if !initialized {
        return Fail(NotInitialized);
      }
      IvSpace();
      NonceBytes(encryptIV[..]);
      WrapIsMod(Value(encryptIV[..]) + 1);
      AdvanceIV(encryptIV);
      NonceBytes(encryptIV[..]);
      SealPacketBytes(aes(key[..]), encryptIV[..], plaintext);
      var ciphertext, tag := Encrypt(aes(key[..]), encryptIV[..], plaintext);
      return Ok([encryptIV[0]] + tag[..3] + ciphertext);
    }

    /** Opens a packet: the new counter, the new replay table and the answer are those of `Receive`. */
    method Decrypt15(packet: Bytes) returns (r: Result)
      requires Valid()
      modifies decryptIV, history
      ensures Receiving().Valid() && old(Receiving()).Valid()
      ensures (Receiving(), r) == if initialized then Receive(CipherOf(), old(Receiving()), packet)
                                  else (old(Receiving()), Fail(NotInitialized))
    {
      hide Value, Next, ByteVal, Pow256, OpenPacket, AttemptIV, Receive, Mark;
      NonceBytes(decryptIV[..]);
      if !initialized {
        return Fail(NotInitialized);
      }
      if |packet| < HEADER_SIZE {
        TooShortFails(CipherOf(), Receiving(), packet);
        return Fail(TooShort);
      }
      ghost var k, before := CipherOf(), Receiving();
      var ivByte := packet[0];
      ghost var a := AttemptIV(before.iv, ByteVal(ivByte));
      ReceiveCases(k, before, packet, a);
      var savedIV := decryptIV[..];
      var moved, restore, checked := MoveIV(decryptIV, ivByte);
      if !moved {
        return Fail(TooFarOff);
      }
      NonceBytes(decryptIV[..]);
      if checked && history[ByteVal(ivByte)] != 0 && history[ByteVal(ivByte)] == decryptIV[1] {
        CopyInto(decryptIV, savedIV);
        return Fail(Replay);
      }
      r := OpenBytes(aes(key[..]), decryptIV[..], packet);
      if r.Fail? {
        CopyInto(decryptIV, savedIV);
        return;
      }
      history[ByteVal(ivByte)] := decryptIV[1];
      assert history[..] == before.history[ByteVal(ivByte) := decryptIV[1]];
      if restore {
        CopyInto(decryptIV, savedIV);
      }
    }
  }

  lemma TooShortFails(k: Cipher, r: Receiver, packet: Bytes)
    requires r.Valid() && |packet| < HEADER_SIZE
    ensures Receive(k, r, packet) == (r, Fail(TooShort))
  {
  }

  method CopyInto(dst: array<bv8>, src: Bytes)
    requires |src| == dst.Length
    modifies dst
    ensures dst[..] == src
  {
    forall i | 0 <= i < dst.Length {
      dst[i] := src[i];
    }
  }
}
