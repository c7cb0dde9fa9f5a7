/** Numbers as bytes. A byte is a number below 256. */
module Numbers {

  type Byte = b: int | 0 <= b < 0x100 witness 0

  type Int64 = v: int | -0x8000_0000_0000_0000 <= v < 0x8000_0000_0000_0000 witness 0

  // ---------------------------------------------------------------- most significant byte first

  /** 256 to the power of `n`. */
  function Pow256(n: nat): (p: nat)
    ensures p > 0
  {
    if n == 0 then 1 else 256 * Pow256(n - 1)
  }

  /** The low `n` bytes of a number, most significant first. */
  function BigEndian(v: nat, n: nat): (s: seq<Byte>)
    ensures |s| == n
  {
    if n == 0 then [] else BigEndian(v / 256, n - 1) + [v % 256]
  }

  function FromBigEndian(s: seq<Byte>): nat {
    if s == [] then 0 else 256 * FromBigEndian(s[..|s| - 1]) + s[|s| - 1]
  }

  lemma {:induction false} BigEndianBack(v: nat, n: nat)
    requires v < Pow256(n)
    ensures FromBigEndian(BigEndian(v, n)) == v
  {
    if n > 0 {
      assert v / 256 < Pow256(n - 1);
      BigEndianBack(v / 256, n - 1);
      assert BigEndian(v, n)[..n - 1] == BigEndian(v / 256, n - 1);
    }
  }

  lemma {:induction false} FromBigEndianBound(s: seq<Byte>)
    ensures FromBigEndian(s) < Pow256(|s|)
  {
    if s != [] { FromBigEndianBound(s[..|s| - 1]); }
  }

  // ---------------------------------------------------------------- least significant byte first

  function LittleEndian(v: nat, n: nat): (s: seq<Byte>)
    ensures |s| == n
  {
    if n == 0 then [] else [v % 256] + LittleEndian(v / 256, n - 1)
  }

  function FromLittleEndian(s: seq<Byte>): nat {
    if s == [] then 0 else s[0] + 256 * FromLittleEndian(s[1..])
  }

  lemma {:induction false} LittleEndianBack(v: nat, n: nat)
    requires v < Pow256(n)
    ensures FromLittleEndian(LittleEndian(v, n)) == v
  {
    if n > 0 {
      assert v / 256 < Pow256(n - 1);
      LittleEndianBack(v / 256, n - 1);
      assert LittleEndian(v, n)[1..] == LittleEndian(v / 256, n - 1);
    }
  }

  lemma {:induction false} FromLittleEndianBound(s: seq<Byte>)
    ensures FromLittleEndian(s) < Pow256(|s|)
  {
    if s != [] { FromLittleEndianBound(s[1..]); }
  }

  lemma Powers()
    ensures Pow256(4) == 0x1_0000_0000 && Pow256(8) == 0x1_0000_0000_0000_0000
  {
    assert Pow256(2) == 0x1_0000;
    assert Pow256(6) == 0x1_0000_0000_0000;
  }

  // ---------------------------------------------------------------- positions

  /** Three 32-bit float patterns. */
  datatype Position = Position(x: nat, y: nat, z: nat)

  ghost predicate Patterns(p: Position) {
    p.x < 0x1_0000_0000 && p.y < 0x1_0000_0000 && p.z < 0x1_0000_0000
  }

  function PositionBytes(p: Position): (s: seq<Byte>)
    ensures |s| == 12
  {
    LittleEndian(p.x, 4) + LittleEndian(p.y, 4) + LittleEndian(p.z, 4)
  }

  function FromPositionBytes(s: seq<Byte>): Position
    requires |s| == 12
  {
    Position(FromLittleEndian(s[..4]), FromLittleEndian(s[4..8]), FromLittleEndian(s[8..]))
  }

  lemma PositionBack(p: Position)
    requires Patterns(p)
    ensures FromPositionBytes(PositionBytes(p)) == p
  {
    hide LittleEndian, FromLittleEndian, Pow256;
    Powers();
    LittleEndianBack(p.x, 4);
    LittleEndianBack(p.y, 4);
    LittleEndianBack(p.z, 4);
    var s := PositionBytes(p);
    assert s[..4] == LittleEndian(p.x, 4) && s[4..8] == LittleEndian(p.y, 4) && s[8..] == LittleEndian(p.z, 4);
  }
}
