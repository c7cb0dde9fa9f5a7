/** The native UDP audio message: protobuf varints ('Base 128 Varints' of the Protocol Buffers encoding
    specification), the encoder, and a decoder that takes any bytes. */
module UdpAudio {
  import opened Options
  import opened Numbers

  const TWO64 := 0x1_0000_0000_0000_0000

  // ---------------------------------------------------------------- protobuf varints

  /** Seven bits a byte, least significant first, the high bit set in all bytes but the last. */
  function Pb(v: nat): (s: seq<Byte>)
    ensures s != []
  {
    if v < 0x80 then [v] else [0x80 + v % 0x80] + Pb(v / 0x80)
  }

  /** A value starting at byte `i` is below this: two to the power 64 - 7 * i. */
  function Limit(i: nat): (limit: nat)
    decreases 10 - i
  {
    if i > 9 then 0 else if i == 9 then 2 else 0x80 * Limit(i + 1)
  }

  lemma LimitStart()
    ensures Limit(0) == TWO64
  {
    assert Limit(6) == 0x80 * 0x80 * 0x80 * 2;
    assert Limit(3) == 0x80 * 0x80 * 0x80 * Limit(6);
  }

  lemma {:induction false} PbLength(v: nat, i: nat)
    requires v < Limit(i)
    ensures |Pb(v)| <= 10 - i
    decreases v
  {
    if v >= 0x80 { PbLength(v / 0x80, i + 1); }
  }

  /** The value whose bytes from number `i` on start `b`, and how many there are; (0, 0) if it is cut off or does not
      fit 64 bits. */
  function PbRead(b: seq<Byte>, i: nat): (r: (nat, nat))
    ensures r.1 <= |b|
    decreases |b|
  {
    if b == [] || i == 10 || (i == 9 && b[0] > 1) then (0, 0)
    else if b[0] < 0x80 then (b[0], 1)
    else
      var (v, n) := PbRead(b[1..], i + 1);
      if n == 0 then (0, 0) else (b[0] as int % 0x80 + 0x80 * v, n + 1)
  }

  lemma {:induction false} PbReadFits(b: seq<Byte>, i: nat)
    requires i <= 10
    ensures PbRead(b, i).1 > 0 ==> PbRead(b, i).0 < Limit(i)
    decreases |b|
  {
    if b != [] && i < 10 && b[0] >= 0x80 {
      PbReadFits(b[1..], i + 1);
    }
    LimitGrows(i);
  }

  lemma {:induction false} LimitGrows(i: nat)
    ensures i < 9 ==> Limit(i) >= 0x100
    decreases 10 - i
  {
    if i < 8 { LimitGrows(i + 1); }
  }

  lemma {:induction false} PbBack(v: nat, i: nat, rest: seq<Byte>)
    requires v < Limit(i)
    ensures PbRead(Pb(v) + rest, i) == (v, |Pb(v)|)
    decreases v
  {
    var s := Pb(v) + rest;
    if v >= 0x80 {
      PbBack(v / 0x80, i + 1, rest);
      assert s[1..] == Pb(v / 0x80) + rest;
      assert s[0] == 0x80 + v % 0x80;
    }
  }

  /** Every uint64 survives, whatever follows. */
  lemma PbRoundTrip(v: nat, rest: seq<Byte>)
    requires v < TWO64
    ensures PbRead(Pb(v) + rest, 0) == (v, |Pb(v)|) && |Pb(v)| <= 10
  {
    LimitStart();
    PbBack(v, 0, rest);
    PbLength(v, 0);
  }

  /** The value read is a uint64. */
  lemma PbFits(b: seq<Byte>)
    ensures PbRead(b, 0).0 < TWO64
  {
    LimitStart();
    PbReadFits(b, 0);
  }

  /** pbEncodeVarint; `buf` has room for any uint64. */
  method PbEncode(buf: array<Byte>, v: nat) returns (n: nat)
    requires v < TWO64 && buf.Length >= 10
    modifies buf
    ensures n == |Pb(v)| && n <= 10 && buf[..n] == Pb(v)
  {
    hide Pb;
    PbRoundTrip(v, []);
    var rest, i := v, 0;
    assert Pb(v) == buf[..0] + Pb(v);
    while rest >= 0x80
      invariant 0 <= i && i + |Pb(rest)| == |Pb(v)| && Pb(v) == buf[..i] + Pb(rest)
      decreases rest
    {
      PbSteps(rest);
      ghost var done := buf[..i];
      buf[i] := 0x80 + rest % 0x80;
      assert buf[..i + 1] == done + [0x80 + rest % 0x80];
      rest := rest / 0x80;
      i := i + 1;
    }
    PbSteps(rest);
    ghost var done := buf[..i];
    buf[i] := rest;
    assert buf[..i + 1] == done + [rest];
    return i + 1;
  }

  lemma PbSteps(v: nat)
    ensures Pb(v) == if v < 0x80 then [v] else [0x80 + v % 0x80] + Pb(v / 0x80)
  {
  }

  /** What a partial value and the rest of it make together. */
  function Joined(v: nat, scale: nat, i: nat, tail: (nat, nat)): (nat, nat) {
    if tail.1 == 0 then (0, 0) else (v + scale * tail.0, i + tail.1)
  }

  lemma JoinedStep(b: seq<Byte>, i: nat, v: nat, scale: nat)
    requires b != [] && b[0] >= 0x80 && i < 10 && !(i == 9 && b[0] > 1)
    ensures Joined(v, scale, i, PbRead(b, i)) == Joined(v + scale * (b[0] as int % 0x80), scale * 0x80, i + 1, PbRead(b[1..], i + 1))
  {
    var tail := PbRead(b[1..], i + 1);
    if tail.1 > 0 {
      calc {
        scale * (b[0] as int % 0x80 + 0x80 * tail.0);
        scale * (b[0] as int % 0x80) + scale * 0x80 * tail.0;
      }
    }
  }

  lemma JoinedStart(b: seq<Byte>)
    ensures PbRead(b, 0) == Joined(0, 1, 0, PbRead(b, 0))
  {
    PbNothing(b, 0);
  }

  lemma {:induction false} PbNothing(b: seq<Byte>, i: nat)
    ensures PbRead(b, i).1 == 0 ==> PbRead(b, i).0 == 0
  {
  }

  /** Where the reading stops. */
  lemma JoinedEnd(b: seq<Byte>, i: nat, v: nat, scale: nat)
    ensures b == [] || i == 10 || (i == 9 && b[0] > 1) ==> Joined(v, scale, i, PbRead(b, i)) == (0, 0)
    ensures b != [] && b[0] < 0x80 && i != 10 && !(i == 9 && b[0] > 1) ==>
      Joined(v, scale, i, PbRead(b, i)) == (v + scale * b[0], i + 1)
  {
  }

  /** pbDecodeVarint. */
  method PbDecode(buf: seq<Byte>) returns (v: nat, n: nat)
    ensures (v, n) == PbRead(buf, 0)
  {
    hide PbRead, Joined;
    v := 0;
    var shift: nat := 1;
    assert buf[0..] == buf;
    JoinedStart(buf);
    for i := 0 to |buf|
      invariant i <= 10 && PbRead(buf, 0) == Joined(v, shift, i, PbRead(buf[i..], i))
    {
      var b := buf[i];
      JoinedEnd(buf[i..], i, v, shift);
      if i == 10 || (i == 9 && b > 1) { return 0, 0; }
      if b < 0x80 { return v + shift * b, i + 1; }
      JoinedStep(buf[i..], i, v, shift);
      assert buf[i..][1..] == buf[i + 1..];
      v := v + shift * (b as int % 0x80);
      shift := shift * 0x80;
    }
    assert buf[|buf|..] == [];
    JoinedEnd([], |buf|, v, shift);
    return 0, 0;
  }

  // ---------------------------------------------------------------- the message

  datatype Audio = Audio(
    session: nat, frame: nat, data: seq<Byte>, terminator: bool, context: nat, position: Option<Position>, volume: nat)

  function PositionField(position: Option<Position>): seq<Byte> {
    if position.None? then [] else Pb(6 * 8 + 2) + Pb(12) + PositionBytes(position.value)
  }

  function DataField(data: seq<Byte>): seq<Byte> {
    if data == [] then [] else Pb(5 * 8 + 2) + Pb(|data|) + data
  }

  function TerminatorField(terminator: bool): seq<Byte> {
    if terminator then Pb(16 * 8) + Pb(1) else []
  }

  function Message(target: nat, frame: nat, data: seq<Byte>, terminator: bool, position: Option<Position>): seq<Byte> {
    Pb(1 * 8) + Pb(target) + Pb(4 * 8) + Pb(frame) + DataField(data) + PositionField(position) + TerminatorField(terminator)
  }

  /** Writes one varint through the 10-byte scratch buffer. */
  method Append(buf: seq<Byte>, tmp: array<Byte>, v: nat) returns (longer: seq<Byte>)
    requires v < TWO64 && tmp.Length == 10
    modifies tmp
    ensures longer == buf + Pb(v)
  {
    var n := PbEncode(tmp, v);
    longer := buf + tmp[..n];
  }

  method AppendData(buf: seq<Byte>, tmp: array<Byte>, data: seq<Byte>) returns (longer: seq<Byte>)
    requires |data| < TWO64 && tmp.Length == 10
    modifies tmp
    ensures longer == buf + DataField(data)
  {
    hide Pb;
    longer := buf;
    if |data| > 0 {
      longer := Append(longer, tmp, 5 * 8 + 2);
      longer := Append(longer, tmp, |data|);
      longer := longer + data;
    }
  }

  method AppendPosition(buf: seq<Byte>, tmp: array<Byte>, position: Option<Position>) returns (longer: seq<Byte>)
    requires tmp.Length == 10
    modifies tmp
    ensures longer == buf + PositionField(position)
  {
    hide Pb, PositionBytes;
    longer := buf;
    if position.Some? {
      longer := Append(longer, tmp, 6 * 8 + 2);
      longer := Append(longer, tmp, 12);
      longer := longer + PositionBytes(position.value);
    }
  }

  method AppendTerminator(buf: seq<Byte>, tmp: array<Byte>, terminator: bool) returns (longer: seq<Byte>)
    requires tmp.Length == 10
    modifies tmp
    ensures longer == buf + TerminatorField(terminator)
  {
    hide Pb;
    longer := buf;
    if terminator {
      longer := Append(longer, tmp, 16 * 8);
      longer := Append(longer, tmp, 1);
    }
  }

  /** encodeUDPAudio. */
  method Encode(target: nat, frame: nat, data: seq<Byte>, terminator: bool, position: Option<Position>) returns (buf: seq<Byte>)
    requires target < 0x1_0000_0000 && frame < TWO64 && |data| < TWO64
    ensures buf == Message(target, frame, data, terminator, position)
  {
    hide Pb, DataField, PositionField, TerminatorField;
    var tmp := new Byte[10](_ => 0);
    buf := Append([], tmp, 1 * 8);
    assert buf == Pb(1 * 8);
    buf := Append(buf, tmp, target);
    buf := Append(buf, tmp, 4 * 8);
    buf := Append(buf, tmp, frame);
    buf := AppendData(buf, tmp, data);
    buf := AppendPosition(buf, tmp, position);
    buf := AppendTerminator(buf, tmp, terminator);
  }

  // ---------------------------------------------------------------- the decoder

  /** What has been decoded so far; `coords` holds three patterns, the first `count` of them set. */
  datatype Fields = Fields(
    session: nat, frame: nat, data: seq<Byte>, terminator: bool, context: nat, coords: seq<nat>, count: nat, volume: nat)

  const NOTHING := Fields(0, 0, [], false, 0, [0, 0, 0], 0, 0)

  ghost predicate Sane(f: Fields) {
    |f.coords| == 3 && f.count <= 3
  }

  function Number(f: Fields, field: nat, v: nat): Fields {
    if field == 2 then f.(context := v % 0x1_0000_0000)
    else if field == 3 then f.(session := v % 0x1_0000_0000)
    else if field == 4 then f.(frame := v)
    else if field == 16 then f.(terminator := v != 0)
    else f
  }

  function Block(f: Fields, field: nat, b: seq<Byte>): Fields {
    if field == 5 then f.(data := b)
    else if field == 6 && |b| == 12 then
      var p := FromPositionBytes(b);
      f.(coords := [p.x, p.y, p.z], count := 3)
    else f
  }

  function Fixed32(f: Fields, field: nat, v: nat): Fields {
    if field == 6 && f.count < 3 && f.count < |f.coords| then f.(coords := f.coords[f.count := v], count := f.count + 1)
    else if field == 7 then f.(volume := v)
    else f
  }

  /** The fields of `b` on top of `f`, and whether the message ran to its end rather than stopping inside a field. */
  function Read(b: seq<Byte>, f: Fields): (Fields, bool)
    decreases |b|
  {
    var (key, n) := PbRead(b, 0);
    if n == 0 then (f, true)
    else
      var rest, field, wire := b[n..], key / 8, key % 8;
      if wire == 0 then
        var (v, m) := PbRead(rest, 0);
        if m == 0 then (f, false) else Read(rest[m..], Number(f, field, v))
      else if wire == 2 then
        var (length, m) := PbRead(rest, 0);
        if m == 0 || length > |rest| - m then (f, false)
        else Read(rest[m + length..], Block(f, field, rest[m..m + length]))
      else if wire == 1 then
        if |rest| < 8 then (f, false) else Read(rest[8..], f)
      else if wire == 5 then
        if |rest| < 4 then (f, false) else Read(rest[4..], Fixed32(f, field, FromLittleEndian(rest[..4])))
      else (f, false)
  }

  function Finish(r: (Fields, bool)): Audio {
    var f := r.0;
    var position := if r.1 && f.count == 3 && |f.coords| == 3 then Some(Position(f.coords[0], f.coords[1], f.coords[2])) else None;
    Audio(f.session, f.frame, f.data, f.terminator, f.context, position, f.volume)
  }

  // One field of each wire type, read at `pos`.
  lemma NumberAt(data: seq<Byte>, pos: nat, f: Fields, key: nat, n: nat, v: nat, m: nat)
    requires pos + n + m <= |data| && n > 0 && key % 8 == 0
    requires PbRead(data[pos..], 0) == (key, n) && PbRead(data[pos + n..], 0) == (v, m)
    ensures Read(data[pos..], f) == if m == 0 then (f, false) else Read(data[pos + n + m..], Number(f, key / 8, v))
  {
    hide PbRead, Number;
    assert data[pos..][n..] == data[pos + n..] && data[pos + n..][m..] == data[pos + n + m..];
  }

  lemma BlockAt(data: seq<Byte>, pos: nat, f: Fields, key: nat, n: nat, length: nat, m: nat)
    requires pos + n + m <= |data| && n > 0 && key % 8 == 2
    requires PbRead(data[pos..], 0) == (key, n) && PbRead(data[pos + n..], 0) == (length, m)
    ensures Read(data[pos..], f)
         == if m == 0 || pos + n + m + length > |data| then (f, false)
            else Read(data[pos + n + m + length..], Block(f, key / 8, data[pos + n + m..pos + n + m + length]))
  {
    hide PbRead, Block;
    var rest := data[pos + n..];
    assert data[pos..][n..] == rest;
    if pos + n + m + length <= |data| {
      assert rest[m..m + length] == data[pos + n + m..pos + n + m + length];
      assert rest[m + length..] == data[pos + n + m + length..];
    }
  }

  lemma FixedAt(data: seq<Byte>, pos: nat, f: Fields, key: nat, n: nat)
    requires pos + n <= |data| && n > 0 && PbRead(data[pos..], 0) == (key, n)
    ensures key % 8 == 1 ==>
      Read(data[pos..], f) == if pos + n + 8 > |data| then (f, false) else Read(data[pos + n + 8..], f)
    ensures key % 8 == 5 ==>
      Read(data[pos..], f)
      == if pos + n + 4 > |data| then (f, false)
         else Read(data[pos + n + 4..], Fixed32(f, key / 8, FromLittleEndian(data[pos + n..pos + n + 4])))
    ensures key % 8 !in {0, 1, 2, 5} ==> Read(data[pos..], f) == (f, false)
  {
    hide PbRead, Fixed32, FromLittleEndian;
    var rest := data[pos + n..];
    assert data[pos..][n..] == rest;
    if pos + n + 4 <= |data| { assert rest[..4] == data[pos + n..pos + n + 4] && rest[4..] == data[pos + n + 4..]; }
    if pos + n + 8 <= |data| { assert rest[8..] == data[pos + n + 8..]; }
  }

  /** decodeUDPAudio: it ends, and stays inside `data`, on all bytes. */
  method Decode(data: seq<Byte>) returns (audio: Audio)
    ensures audio == Finish(Read(data, NOTHING))
  {
    hide PbRead, Read, Number, Block, Fixed32, FromLittleEndian, Finish;
    var f, pos := NOTHING, 0;
    assert data[0..] == data;
    while pos < |data|
      invariant 0 <= pos <= |data| && Read(data, NOTHING) == Read(data[pos..], f)
      decreases |data| - pos
    {
      var key, n := PbDecode(data[pos..]);
      if n == 0 { break; }
      ghost var start := pos;
      pos := pos + n;
      var field, wire := key / 8, key % 8;
      if wire == 0 {
        var v, m := PbDecode(data[pos..]);
        NumberAt(data, start, f, key, n, v, m);
        if m == 0 { return Finish((f, false)); }
        f := Number(f, field, v);
        pos := pos + m;
      } else if wire == 2 {
        var length, m := PbDecode(data[pos..]);
        BlockAt(data, start, f, key, n, length, m);
        if m == 0 { return Finish((f, false)); }
        if length > |data| - (pos + m) { return Finish((f, false)); }
        f := Block(f, field, data[pos + m..pos + m + length]);
        pos := pos + m + length;
      } else {
        FixedAt(data, start, f, key, n);
        if wire == 1 {
          if |data| - pos < 8 { return Finish((f, false)); }
          pos := pos + 8;
        } else if wire == 5 {
          if |data| - pos < 4 { return Finish((f, false)); }
          f := Fixed32(f, field, FromLittleEndian(data[pos..pos + 4]));
          pos := pos + 4;
        } else {
          return Finish((f, false));
        }
      }
    }
    EndOfMessage(data[pos..], f);
    return Finish((f, true));
  }

  lemma EndOfMessage(b: seq<Byte>, f: Fields)
    requires PbRead(b, 0).1 == 0
    ensures Read(b, f) == (f, true)
  {
  }

  // ---------------------------------------------------------------- round trip

  lemma ReadNumber(field: nat, v: nat, rest: seq<Byte>, f: Fields)
    requires field * 8 < TWO64 && v < TWO64
    ensures Read(Pb(field * 8) + Pb(v) + rest, f) == Read(rest, Number(f, field, v))
  {
    hide Pb, PbRead, Number;
    var b := Pb(field * 8) + Pb(v) + rest;
    assert b == Pb(field * 8) + (Pb(v) + rest);
    PbRoundTrip(field * 8, Pb(v) + rest);
    PbRoundTrip(v, rest);
    assert b[|Pb(field * 8)|..] == Pb(v) + rest;
    assert (Pb(v) + rest)[|Pb(v)|..] == rest;
  }

  lemma ReadBlock(field: nat, block: seq<Byte>, rest: seq<Byte>, f: Fields)
    requires field * 8 + 2 < TWO64 && |block| < TWO64
    ensures Read(Pb(field * 8 + 2) + Pb(|block|) + block + rest, f) == Read(rest, Block(f, field, block))
  {
    hide Pb, PbRead, Block;
    var b := Pb(field * 8 + 2) + Pb(|block|) + block + rest;
    var b1 := Pb(|block|) + (block + rest);
    assert b == Pb(field * 8 + 2) + b1;
    PbRoundTrip(field * 8 + 2, b1);
    PbRoundTrip(|block|, block + rest);
    var m := |Pb(|block|)|;
    assert b[|Pb(field * 8 + 2)|..] == b1;
    assert b1[m..m + |block|] == block && b1[m + |block|..] == rest;
  }

  lemma ReadData(data: seq<Byte>, rest: seq<Byte>, f: Fields)
    requires |data| < TWO64 && f.data == []
    ensures Read(DataField(data) + rest, f) == Read(rest, f.(data := data))
  {
    if data != [] {
      assert DataField(data) + rest == Pb(5 * 8 + 2) + Pb(|data|) + data + rest;
      ReadBlock(5, data, rest, f);
    } else {
      assert DataField(data) + rest == rest;
    }
    hide Read, Pb;
  }

  /** The fields with a position set. */
  function Placed(f: Fields, position: Option<Position>): Fields {
    if position.None? then f
    else f.(coords := [position.value.x, position.value.y, position.value.z], count := 3)
  }

  lemma ReadPosition(position: Option<Position>, rest: seq<Byte>, f: Fields)
    requires position.Some? ==> Patterns(position.value)
    ensures Read(PositionField(position) + rest, f) == Read(rest, Placed(f, position))
  {
    if position.Some? {
      var b := PositionBytes(position.value);
      assert PositionField(position) + rest == Pb(6 * 8 + 2) + Pb(|b|) + b + rest;
      ReadBlock(6, b, rest, f);
      PositionBack(position.value);
    } else {
      assert PositionField(position) + rest == rest;
    }
    hide Read, Pb, PositionBytes, FromPositionBytes;
  }

  lemma ReadTerminator(terminator: bool, f: Fields)
    requires !f.terminator
    ensures Read(TerminatorField(terminator), f) == (f.(terminator := terminator), true)
  {
    var end := f.(terminator := terminator);
    EndOfMessage([], end);
    if terminator {
      assert TerminatorField(terminator) == Pb(16 * 8) + Pb(1) + [];
      ReadNumber(16, 1, [], f);
    } else {
      assert f == end;
    }
    hide Read, Pb;
  }

  lemma ReadMessage(target: nat, frame: nat, data: seq<Byte>, terminator: bool, position: Option<Position>, f: Fields)
    requires target < 0x1_0000_0000 && frame < TWO64 && |data| < TWO64 && (position.Some? ==> Patterns(position.value))
    requires f.data == [] && !f.terminator
    ensures Read(Message(target, frame, data, terminator, position), f)
         == (Placed(f.(frame := frame, data := data), position).(terminator := terminator), true)
  {
    hide Read, Pb, DataField, PositionField, TerminatorField;
    var t3 := TerminatorField(terminator);
    var t2 := PositionField(position) + t3;
    var t1 := DataField(data) + t2;
    var t0 := Pb(4 * 8) + Pb(frame) + t1;
    assert Message(target, frame, data, terminator, position) == Pb(1 * 8) + Pb(target) + t0;
    ReadNumber(1, target, t0, f);
    ReadNumber(4, frame, t1, f);
    ReadData(data, t2, f.(frame := frame));
    ReadPosition(position, t3, f.(frame := frame, data := data));
    ReadTerminator(terminator, Placed(f.(frame := frame, data := data), position));
  }

  /** Decoding an encoded message gives back its frame number, voice data, terminator and position. */
  lemma RoundTrip(target: nat, frame: nat, data: seq<Byte>, terminator: bool, position: Option<Position>)
    requires target < 0x1_0000_0000 && frame < TWO64 && |data| < TWO64 && (position.Some? ==> Patterns(position.value))
    ensures Finish(Read(Message(target, frame, data, terminator, position), NOTHING))
         == Audio(0, frame, data, terminator, 0, position, 0)
  {
    hide Read, Message;
    ReadMessage(target, frame, data, terminator, position, NOTHING);
  }

  /** So does decoding it after the server has put a context and the sender's session in front. */
  lemma RelayedRoundTrip(context: nat, session: nat, target: nat, frame: nat, data: seq<Byte>, terminator: bool, position: Option<Position>)
    requires context < 0x1_0000_0000 && session < 0x1_0000_0000
    requires target < 0x1_0000_0000 && frame < TWO64 && |data| < TWO64 && (position.Some? ==> Patterns(position.value))
    ensures Finish(Read(Pb(2 * 8) + Pb(context) + (Pb(3 * 8) + Pb(session) + Message(target, frame, data, terminator, position)), NOTHING))
         == Audio(session, frame, data, terminator, context, position, 0)
  {
    hide Read, Message, Pb;
    var b := Message(target, frame, data, terminator, position);
    ReadNumber(2, context, Pb(3 * 8) + Pb(session) + b, NOTHING);
    ReadNumber(3, session, b, NOTHING.(context := context));
    ReadMessage(target, frame, data, terminator, position, NOTHING.(context := context, session := session));
  }

  /** What the decoder does not know it passes over: varints, blocks and floats with other field numbers than its own,
      field 6 blocks that are no position, and every 8-byte field. */
  lemma SkipsUnknown(field: nat, v: nat, block: seq<Byte>, rest: seq<Byte>, f: Fields)
    requires field * 8 + 7 < TWO64 && v < TWO64 && |block| < TWO64
    ensures field !in {2, 3, 4, 16} ==> Read(Pb(field * 8) + Pb(v) + rest, f) == Read(rest, f)
    ensures field != 5 && (field != 6 || |block| != 12) ==>
      Read(Pb(field * 8 + 2) + Pb(|block|) + block + rest, f) == Read(rest, f)
    ensures |block| == 8 ==> Read(Pb(field * 8 + 1) + block + rest, f) == Read(rest, f)
    ensures |block| == 4 && field !in {6, 7} ==> Read(Pb(field * 8 + 5) + block + rest, f) == Read(rest, f)
  {
    hide Pb, PbRead, Read, FromLittleEndian;
    ReadNumber(field, v, rest, f);
    ReadBlock(field, block, rest, f);
    if |block| == 8 { SkipsEight(field, block, rest, f); }
    if |block| == 4 { ReadFixed32(field, block, rest, f); }
  }

  lemma SkipsEight(field: nat, block: seq<Byte>, rest: seq<Byte>, f: Fields)
    requires field * 8 + 1 < TWO64 && |block| == 8
    ensures Read(Pb(field * 8 + 1) + block + rest, f) == Read(rest, f)
  {
    hide Pb, PbRead, Read;
    var key, tail := Pb(field * 8 + 1), block + rest;
    assert key + block + rest == key + tail;
    PbRoundTrip(field * 8 + 1, tail);
    assert (key + tail)[0..] == key + tail;
    assert (key + tail)[|key| + 8..] == rest;
    FixedAt(key + tail, 0, f, field * 8 + 1, |key|);
  }

  lemma ReadFixed32(field: nat, block: seq<Byte>, rest: seq<Byte>, f: Fields)
    requires field * 8 + 5 < TWO64 && |block| == 4
    ensures Read(Pb(field * 8 + 5) + block + rest, f) == Read(rest, Fixed32(f, field, FromLittleEndian(block)))
  {
    hide Pb, PbRead, Fixed32, FromLittleEndian;
    var b := Pb(field * 8 + 5) + block + rest;
    assert b == Pb(field * 8 + 5) + (block + rest);
    PbRoundTrip(field * 8 + 5, block + rest);
    assert b[|Pb(field * 8 + 5)|..] == block + rest && (block + rest)[..4] == block && (block + rest)[4..] == rest;
  }

  function Coordinate(v: nat): seq<Byte> {
    Pb(6 * 8 + 5) + LittleEndian(v, 4)
  }

  lemma ReadCoordinate(v: nat, rest: seq<Byte>, f: Fields)
    requires v < 0x1_0000_0000
    ensures Read(Coordinate(v) + rest, f) == Read(rest, Fixed32(f, 6, v))
  {
    Powers();
    LittleEndianBack(v, 4);
    ReadFixed32(6, LittleEndian(v, 4), rest, f);
    hide Read, Pb, LittleEndian, FromLittleEndian, Fixed32;
  }

  /** A position sent as three separate floats is read like a packed one. */
  lemma UnpackedPosition(p: Position, rest: seq<Byte>, f: Fields)
    requires Patterns(p) && Sane(f) && f.count == 0
    ensures Read(Coordinate(p.x) + (Coordinate(p.y) + (Coordinate(p.z) + rest)), f) == Read(rest, Placed(f, Some(p)))
    ensures Read(PositionField(Some(p)) + rest, f) == Read(rest, Placed(f, Some(p)))
  {
    hide Read, Coordinate, PositionField;
    var f1 := Fixed32(f, 6, p.x);
    var f2 := Fixed32(f1, 6, p.y);
    ReadCoordinate(p.x, Coordinate(p.y) + (Coordinate(p.z) + rest), f);
    ReadCoordinate(p.y, Coordinate(p.z) + rest, f1);
    ReadCoordinate(p.z, rest, f2);
    ReadPosition(Some(p), rest, f);
    assert Fixed32(f2, 6, p.z).coords == [p.x, p.y, p.z];
  }
}
