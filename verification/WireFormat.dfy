/** The bytes on the wire, said outright: which digit of a number each byte carries, the first code word of
    every form, and where each field of an audio message stands. */
module WireFormat {
  import opened Options
  import opened Numbers
  import Varint
  import opened UdpAudio
  import LegacyVoice

  // ---------------------------------------------------------------- digits

  /** `base` to the power of `k`. */
  function Power(base: nat, k: nat): (p: nat)
    requires base > 0
    ensures p > 0
  {
    if k == 0 then 1 else base * Power(base, k - 1)
  }

  /** Digit `k` of a number, counted from the least significant. */
  function Digit(v: nat, base: nat, k: nat): nat
    requires base > 0
  {
    v / Power(base, k) % base
  }

  lemma QuotientIs(v: nat, d: nat, q: nat, r: nat)
    requires r < d && v == d * q + r
    ensures v / d == q
  {
    var e := q - v / d;
    Multiples(d, e);
    assert d * e + r == v % d;
  }

  lemma Multiples(d: nat, e: int)
    ensures (e < 0 ==> d * e + d <= 0) && (e > 0 ==> d * e >= d)
  {
  }

  lemma Distribute(b: nat, p: nat, q: nat, r: nat)
    ensures b * (p * q + r) == (b * p) * q + b * r
  {
    assert b * (p * q + r) == b * (p * q) + b * r;
    Associate(b, p, q);
  }

  lemma Associate(b: nat, p: nat, q: nat)
    ensures b * (p * q) == (b * p) * q
  {
  }

  lemma BelowProduct(b: nat, p: nat, r: nat, low: nat)
    requires r < p && low < b
    ensures b * r + low < b * p
  {
    assert b * (r + 1) <= b * p;
  }

  lemma Nested(v: nat, b: nat, p: nat, w: nat, low: nat, q: nat, r: nat)
    requires v == b * w + low && low < b && w == p * q + r && r < p
    ensures b * p > 0 && v / (b * p) == q
  {
    Distribute(b, p, q, r);
    BelowProduct(b, p, r, low);
    QuotientIs(v, b * p, q, b * r + low);
  }

  // Dividing in two steps.
  lemma TwoSteps(v: nat, b: nat, p: nat)
    requires b > 0 && p > 0
    ensures b * p > 0 && v / b / p == v / (b * p)
  {
    var w := v / b;
    Nested(v, b, p, w, v % b, w / p, w % p);
  }

  lemma DigitStep(v: nat, base: nat, k: nat)
    requires base > 0 && k > 0
    ensures Digit(v, base, k) == Digit(v / base, base, k - 1)
  {
    TwoSteps(v, base, Power(base, k - 1));
  }

  lemma DigitFirst(v: nat, base: nat)
    requires base > 0
    ensures Digit(v, base, 0) == v % base
  {
  }

  /** Most significant byte first: byte `k` from the end is digit `k` to base 256. */
  lemma {:induction false} BigEndianDigit(v: nat, n: nat, k: nat)
    requires k < n
    ensures BigEndian(v, n)[n - 1 - k] == Digit(v, 256, k)
  {
    hide Digit;
    if k > 0 {
      BigEndianDigit(v / 256, n - 1, k - 1);
      DigitStep(v, 256, k);
    } else {
      DigitFirst(v, 256);
    }
  }

  /** Least significant byte first: byte `k` is digit `k`. */
  lemma {:induction false} LittleEndianDigit(v: nat, n: nat, k: nat)
    requires k < n
    ensures LittleEndian(v, n)[k] == Digit(v, 256, k)
  {
    hide Digit;
    if k > 0 {
      LittleEndianDigit(v / 256, n - 1, k - 1);
      DigitStep(v, 256, k);
    } else {
      DigitFirst(v, 256);
    }
  }

  /** Byte `k` of a protobuf varint holds digit `k` to base 128; its high bit says whether another byte follows. */
  lemma {:induction false} PbDigit(v: nat, k: nat)
    requires k < |Pb(v)|
    ensures Pb(v)[k] as int % 0x80 == Digit(v, 0x80, k)
    ensures Pb(v)[k] >= 0x80 <==> k < |Pb(v)| - 1
    decreases k
  {
    hide Digit;
    if k > 0 {
      PbDigit(v / 0x80, k - 1);
      DigitStep(v, 0x80, k);
    } else {
      DigitFirst(v, 0x80);
    }
  }

  // ---------------------------------------------------------------- Mumble's varints

  lemma ShortWords()
    ensures Varint.Encoded(0x7F) == [0x7F] && Varint.Encoded(0x80) == [0x80, 0x80]
    ensures Varint.Encoded(0x4000) == [0xC0, 0x40, 0x00] && Varint.Encoded(0x20_0000) == [0xE0, 0x20, 0x00, 0x00]
  {
    hide BigEndian;
  }

  lemma Word32()
    ensures Varint.Encoded(0x1000_0000) == [0xF0, 0x10, 0x00, 0x00, 0x00]
  {
    assert BigEndian(0x1000_0000, 4) == [0x10, 0x00, 0x00, 0x00];
  }

  lemma Word64()
    ensures Varint.Encoded(0x8000_0000) == [0xF4, 0x00, 0x00, 0x00, 0x00, 0x80, 0x00, 0x00, 0x00]
  {
    assert BigEndian(0x8000_0000, 8) == [0x00, 0x00, 0x00, 0x00, 0x80, 0x00, 0x00, 0x00];
  }

  /** The first code word of each form of natural numbers, and the last of the shortest. */
  lemma FirstWords()
    ensures Varint.Encoded(0x7F) == [0x7F] && Varint.Encoded(0x80) == [0x80, 0x80]
    ensures Varint.Encoded(0x4000) == [0xC0, 0x40, 0x00]
    ensures Varint.Encoded(0x20_0000) == [0xE0, 0x20, 0x00, 0x00]
    ensures Varint.Encoded(0x1000_0000) == [0xF0, 0x10, 0x00, 0x00, 0x00]
    ensures Varint.Encoded(0x8000_0000) == [0xF4, 0x00, 0x00, 0x00, 0x00, 0x80, 0x00, 0x00, 0x00]
  {
    hide Varint.Encoded;
    ShortWords();
    Word32();
    Word64();
  }

  /** Code words of negative numbers, the smallest among them. */
  lemma NegativeWords()
    ensures Varint.Encoded(-1) == [0xFC] && Varint.Encoded(-4) == [0xFF] && Varint.Encoded(-5) == [0xF8, 0x05]
    ensures Varint.Encoded(Varint.MIN_INT64) == [0xF8, 0xF4, 0x80, 0x00, 0x00, 0x00, 0x00, 0x00, 0x00, 0x00]
  {
    assert Varint.Encoded(5) == [0x05];
    assert BigEndian(0x8000_0000_0000_0000, 8) == [0x80, 0x00, 0x00, 0x00, 0x00, 0x00, 0x00, 0x00];
  }

  // ---------------------------------------------------------------- the audio message

  lemma OneByte(v: Byte)
    requires v < 0x80
    ensures Pb(v) == [v]
  {
  }

  lemma DataLaid(data: seq<Byte>)
    ensures DataField(data) == if data == [] then [] else [0x2A] + Pb(|data|) + data
  {
    hide Pb;
    OneByte(0x2A);
  }

  lemma PositionLaid(position: Option<Position>)
    ensures PositionField(position) == if position.None? then [] else [0x32, 0x0C] + PositionBytes(position.value)
  {
    hide Pb, PositionBytes;
    OneByte(0x32);
    OneByte(0x0C);
    assert [0x32] + [0x0C] == [0x32, 0x0C];
  }

  lemma TerminatorLaid(terminator: bool)
    ensures TerminatorField(terminator) == if terminator then [0x80, 0x01, 0x01] else []
  {
    OneByte(0x01);
    assert Pb(16 * 8) == [0x80] + Pb(1);
    assert [0x80, 0x01] + [0x01] == [0x80, 0x01, 0x01];
  }

  /** The message laid out: the target under key 1, the frame number under key 4, then, only if there is
      any, the data under key 5, the position under key 6 and the terminator under key 16. */
  lemma OnTheWire(target: nat, frame: nat, data: seq<Byte>, terminator: bool, position: Option<Position>)
    ensures Message(target, frame, data, terminator, position)
         == [0x08] + Pb(target) + [0x20] + Pb(frame)
            + (if data == [] then [] else [0x2A] + Pb(|data|) + data)
            + (if position.None? then [] else [0x32, 0x0C] + PositionBytes(position.value))
            + (if terminator then [0x80, 0x01, 0x01] else [])
  {
    hide PositionBytes, Pb, DataField, PositionField, TerminatorField;
    OneByte(0x08);
    OneByte(0x20);
    DataLaid(data);
    PositionLaid(position);
    TerminatorLaid(terminator);
  }

  /** The target written is the target read. */
  lemma TargetIsSent(target: nat, frame: nat, data: seq<Byte>, terminator: bool, position: Option<Position>)
    requires target < 0x1_0000_0000
    ensures var m := Message(target, frame, data, terminator, position);
            m != [] && m[0] == 0x08 && PbRead(m[1..], 0) == (target, |Pb(target)|)
  {
    hide Pb, PbRead, DataField, PositionField, TerminatorField;
    var rest := Pb(4 * 8) + Pb(frame) + DataField(data) + PositionField(position) + TerminatorField(terminator);
    var m := Message(target, frame, data, terminator, position);
    OneByte(0x08);
    assert m == [0x08] + (Pb(target) + rest);
    assert m[1..] == Pb(target) + rest;
    PbRoundTrip(target, rest);
  }

  /** Two messages are the same bytes only if they say the same: a whisper is never taken for normal talking. */
  lemma MessagesDiffer(target: nat, frame: nat, data: seq<Byte>, terminator: bool, position: Option<Position>,
                       target': nat, frame': nat, data': seq<Byte>, terminator': bool, position': Option<Position>)
    requires target < 0x1_0000_0000 && frame < TWO64 && |data| < TWO64 && (position.Some? ==> Patterns(position.value))
    requires target' < 0x1_0000_0000 && frame' < TWO64 && |data'| < TWO64 && (position'.Some? ==> Patterns(position'.value))
    requires Message(target, frame, data, terminator, position) == Message(target', frame', data', terminator', position')
    ensures target == target' && frame == frame' && data == data' && terminator == terminator' && position == position'
  {
    hide Message, Read, Pb, PbRead;
    TargetIsSent(target, frame, data, terminator, position);
    TargetIsSent(target', frame', data', terminator', position');
    RoundTrip(target, frame, data, terminator, position);
    RoundTrip(target', frame', data', terminator', position');
  }

  /** The volume adjustment is a float under key 7. */
  lemma VolumeRead(v: nat, rest: seq<Byte>, f: Fields)
    requires v < 0x1_0000_0000
    ensures Read([0x3D] + LittleEndian(v, 4) + rest, f) == Read(rest, f.(volume := v))
  {
    Powers();
    LittleEndianBack(v, 4);
    OneByte(0x3D);
    ReadFixed32(7, LittleEndian(v, 4), rest, f);
    hide Read, Pb, LittleEndian, FromLittleEndian;
  }

  // ---------------------------------------------------------------- the legacy header

  /** The header byte of an Opus packet: the format in the top three bits, the target in the low five. */
  lemma OpusHeader(target: Byte)
    requires target < 32
    ensures LegacyVoice.Header(LegacyVoice.OPUS, target) == 0x80 + target
  {
  }

  lemma LengthWord(length: nat, final: bool)
    requires length < 0x80
    ensures Varint.Encoded(LegacyVoice.LengthField(length, final)) == if final then [0xA0, length] else [length]
  {
  }

  /** A short legacy packet laid out: header, sequence number, length with the terminator in bit 13, data, position. */
  lemma LegacyOnTheWire(target: Byte, sequence: Int64, data: seq<Byte>, final: bool, position: Option<Position>)
    requires target < 32 && 0 <= sequence < 0x80 && |data| < 0x80
    ensures LegacyVoice.Payload(LegacyVoice.OPUS, target, sequence, data, final, position)
         == [0x80 + target, sequence] + (if final then [0xA0, |data|] else [|data|]) + data
            + (if position.None? then [] else PositionBytes(position.value))
  {
    hide LegacyVoice.Header, LegacyVoice.LengthField, PositionBytes;
    OpusHeader(target);
    LengthWord(|data|, final);
    assert Varint.Encoded(sequence) == [sequence];
    hide Varint.Encoded;
    assert [0x80 + target] + ([sequence] + Varint.Encoded(LegacyVoice.LengthField(|data|, final)) + data + LegacyVoice.PositionPart(position))
        == [0x80 + target, sequence] + Varint.Encoded(LegacyVoice.LengthField(|data|, final)) + data + LegacyVoice.PositionPart(position);
  }
}
