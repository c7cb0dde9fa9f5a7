/** The voice packet used before native UDP audio: the client's encoder, and the parser at the start of
    handleUDPTunnel, which sees the sender's session inserted by the server after the header byte. */
module LegacyVoice {
  import opened Options
  import opened Numbers
  import opened Varint

  const OPUS := 4
  const TERMINATOR := 0x2000

  datatype Voice = Voice(target: nat, session: Int64, sequence: Int64, data: seq<Byte>, final: bool, position: Option<Position>)

  datatype Parsed = Ok(voice: Voice) | Unsupported | Invalid

  // ---------------------------------------------------------------- bits

  function Bit13(v: int): bool {
    v / TERMINATOR % 2 == 1
  }

  /** Bitwise or of two 3-bit numbers. */
  function Or3(a: nat, b: nat): (r: nat)
    requires a < 8 && b < 8
    ensures r < 8
  {
    (if a / 4 == 1 || b / 4 == 1 then 4 else 0)
    + (if a / 2 % 2 == 1 || b / 2 % 2 == 1 then 2 else 0)
    + (if a % 2 == 1 || b % 2 == 1 then 1 else 0)
  }

  /** `format << 5 | target` in one byte: the target's own high bits are or-ed into the format. */
  function Header(format: Byte, target: Byte): Byte {
    Or3(format % 8, target / 32) * 32 + target % 32
  }

  /** The length field, with the terminator bit set if `final`. */
  function LengthField(length: nat, final: bool): (r: nat)
    ensures r < 0x8000_0000_0000_0000 <==> length < 0x8000_0000_0000_0000
  {
    if final && !Bit13(length) then length + TERMINATOR else length
  }

  function PositionPart(position: Option<Position>): seq<Byte> {
    if position.None? then [] else PositionBytes(position.value)
  }

  // ---------------------------------------------------------------- encoder and parser

  function Body(sequence: Int64, data: seq<Byte>, final: bool, position: Option<Position>): seq<Byte>
    requires |data| < 0x8000_0000_0000_0000
  {
    Encoded(sequence) + Encoded(LengthField(|data|, final)) + data + PositionPart(position)
  }

  function Payload(format: Byte, target: Byte, sequence: Int64, data: seq<Byte>, final: bool, position: Option<Position>): seq<Byte>
    requires |data| < 0x8000_0000_0000_0000
  {
    [Header(format, target)] + Body(sequence, data, final, position)
  }

  /** What the server makes of a payload before it passes it on. */
  function Relayed(payload: seq<Byte>, session: Int64): seq<Byte>
    requires payload != []
  {
    [payload[0]] + Encoded(session) + payload[1..]
  }

  /** The last field: the voice data and, if exactly 12 bytes are left, a position. */
  function ParseData(target: nat, session: Int64, sequence: Int64, length: Int64, b: seq<Byte>): Parsed {
    var size := if Bit13(length) then length - TERMINATOR else length;
    if size < 0 || size > |b| then Invalid
    else
      var position := if |b| - size == 12 then Some(FromPositionBytes(b[size..])) else None;
      Ok(Voice(target, session, sequence, b[..size], Bit13(length), position))
  }

  function Parse(b: seq<Byte>): Parsed
    requires b != []
  {
    if b[0] / 32 != OPUS then Unsupported
    else
      var (session, n) := Decode(b[1..]);
      if n == 0 then Invalid
      else
        var b1 := b[1 + n..];
        var (sequence, m) := Decode(b1);
        if m == 0 then Invalid
        else
          var b2 := b1[m..];
          var (length, k) := Decode(b2);
          if k == 0 then Invalid else ParseData(b[0] % 32, session, sequence, length, b2[k..])
  }

  /** encodeLegacyUDPAudio. */
  method Build(format: Byte, target: Byte, sequence: Int64, data: seq<Byte>, final: bool, position: Option<Position>)
      returns (payload: seq<Byte>)
    requires |data| < 0x8000_0000_0000_0000
    ensures payload == Payload(format, target, sequence, data, final, position)
  {
    hide Encoded, PositionBytes, LengthField, Header, Wrote;
    var header := new Byte[1 + 2 * MAX_LEN](_ => 0);
    header[0] := Header(format, target);
    ghost var h0 := header[..];
    assert h0[..1] == [Header(format, target)];
    var n := EncodeInto(header, 1, sequence);
    ghost var h1 := header[..];
    WroteStart(h0, h1, 1, Encoded(sequence));
    var m := EncodeInto(header, 1 + n, LengthField(|data|, final));
    WroteStart(h1, header[..], 1 + n, Encoded(LengthField(|data|, final)));
    payload := header[..1 + n + m] + data;
    if position.Some? {
      payload := payload + PositionBytes(position.value);
    }
    assert payload == [Header(format, target)] + Body(sequence, data, final, position);
  }

  // ---------------------------------------------------------------- round trip

  lemma HeaderParses(format: Byte, target: Byte)
    requires format == OPUS
    ensures Header(format, target) / 32 == OPUS && Header(format, target) % 32 == target <==> target < 32
  {
    var high := Or3(OPUS, target / 32);
    assert Header(format, target) / 32 == high && Header(format, target) % 32 == target % 32;
  }

  lemma DataParses(target: nat, session: Int64, sequence: Int64, data: seq<Byte>, final: bool, position: Option<Position>)
    requires |data| < 0x8000_0000_0000_0000 && (position.Some? ==> Patterns(position.value))
    ensures var r := ParseData(target, session, sequence, LengthField(|data|, final), data + PositionPart(position));
      r == Ok(Voice(target, session, sequence, data, final, position)) <==> !Bit13(|data|)
  {
    hide PositionBytes, FromPositionBytes;
    var b := data + PositionPart(position);
    assert b[|data|..] == PositionPart(position) && b[..|data|] == data;
    if position.Some? { PositionBack(position.value); }
    assert !Bit13(|data|) ==> Bit13(LengthField(|data|, final)) == final;
  }

  lemma FieldsParse(target: Byte, session: Int64, sequence: Int64, data: seq<Byte>, final: bool, position: Option<Position>)
    requires |data| < 0x8000_0000_0000_0000
    ensures var b := Relayed(Payload(OPUS, target, sequence, data, final, position), session);
      Parse(b) == if b[0] / 32 != OPUS then Unsupported
        else ParseData(b[0] % 32, session, sequence, LengthField(|data|, final), data + PositionPart(position))
  {
    hide Encoded, Decode, LengthField, PositionPart, ParseData, Header;
    var p := Payload(OPUS, target, sequence, data, final, position);
    var b := Relayed(p, session);
    var length := LengthField(|data|, final);
    var tail := data + PositionPart(position);
    var b2 := Encoded(length) + tail;
    var b1 := Encoded(sequence) + b2;
    assert p[1..] == b1;
    assert b[1..] == Encoded(session) + b1;
    RoundTrip(session, b1);
    RoundTrip(sequence, b2);
    RoundTrip(length, tail);
    assert b[1 + |Encoded(session)|..] == b1 && b1[|Encoded(sequence)|..] == b2 && b2[|Encoded(length)|..] == tail;
  }

  /** A relayed packet parses back to what was sent exactly when the target fits its 5 bits and bit 13 of the length,
      which doubles as the terminator, is clear. */
  lemma VoiceRoundTrip(target: Byte, session: Int64, sequence: Int64, data: seq<Byte>, final: bool, position: Option<Position>)
    requires |data| < 0x8000_0000_0000_0000 && (position.Some? ==> Patterns(position.value))
    ensures var b := Relayed(Payload(OPUS, target, sequence, data, final, position), session);
      Parse(b) == Ok(Voice(target, session, sequence, data, final, position)) <==> target < 32 && !Bit13(|data|)
  {
    hide Encoded, Body, Parse, ParseData, Header, LengthField;
    var b := Relayed(Payload(OPUS, target, sequence, data, final, position), session);
    FieldsParse(target, session, sequence, data, final, position);
    HeaderParses(OPUS, target);
    DataParses(b[0] % 32, session, sequence, data, final, position);
    DataKeepsTarget(b[0] % 32, session, sequence, LengthField(|data|, final), data + PositionPart(position));
  }

  lemma DataKeepsTarget(target: nat, session: Int64, sequence: Int64, length: Int64, b: seq<Byte>)
    ensures var r := ParseData(target, session, sequence, length, b); r.Ok? ==> r.voice.target == target
  {
  }

  lemma ShortLength(n: nat)
    requires n < TERMINATOR
    ensures !Bit13(n)
  {
  }

  /** In particular for every packet below 8192 bytes of voice data. */
  lemma ShortVoice(target: Byte, session: Int64, sequence: Int64, data: seq<Byte>, final: bool, position: Option<Position>)
    requires target < 32 && |data| < TERMINATOR && (position.Some? ==> Patterns(position.value))
    ensures Parse(Relayed(Payload(OPUS, target, sequence, data, final, position), session))
         == Ok(Voice(target, session, sequence, data, final, position))
  {
    hide Parse, Relayed, Payload, Bit13;
    ShortLength(|data|);
    VoiceRoundTrip(target, session, sequence, data, final, position);
  }
}
