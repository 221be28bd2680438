module Framing {
  // Length-prefixed framing, shared by the actor transport and the record
  // collector: a 32-bit length in native order (taken as little-endian) and then
  // the payload.

  import opened Prelude

  const U32 := 0x1_0000_0000

  // static_cast<uint32_t> and the four bytes of the value.
  function EncodeLength(n: nat): (b: Bytes)
    ensures |b| == 4
  {
    var v := n % U32;
    [v % 256, v / 0x100 % 256, v / 0x1_0000 % 256, v / 0x100_0000]
  }

  function DecodeLength(b: Bytes): (n: nat)
    requires |b| >= 4
    ensures n < U32
  {
    var (b0: nat, b1: nat, b2: nat, b3: nat) := (b[0], b[1], b[2], b[3]);
    b0 + 0x100 * b1 + 0x1_0000 * b2 + 0x100_0000 * b3
  }

  lemma LengthRoundTrip(n: nat, rest: Bytes)
    ensures DecodeLength(EncodeLength(n) + rest) == n % U32
  {
    var v := n % U32;
    var v1, v2 := v / 0x100, v / 0x1_0000;
    assert v2 == v1 / 0x100;
    assert v / 0x100_0000 == v2 / 0x100;
    assert v == v % 256 + 0x100 * v1;
    assert v1 == v1 % 256 + 0x100 * v2;
    assert v2 == v2 % 256 + 0x100 * (v2 / 0x100);
    var b := EncodeLength(n) + rest;
    assert b[..4] == EncodeLength(n);
    assert b[0] == v % 256 && b[1] == v1 % 256 && b[2] == v2 % 256 && b[3] == v2 / 0x100;
  }

  function Prefixed(frame: Bytes): Bytes {
    EncodeLength(|frame|) + frame
  }

  // The bytes of a sequence of frames on the wire.
  function Wire(frames: seq<Bytes>): Bytes {
    if frames == [] then [] else Prefixed(frames[0]) + Wire(frames[1..])
  }

  lemma {:induction false} WireAppend(a: seq<Bytes>, b: seq<Bytes>)
    ensures Wire(a + b) == Wire(a) + Wire(b)
  {
    if a == [] {
      assert a + b == b;
    } else {
      assert (a + b)[1..] == a[1..] + b;
      WireAppend(a[1..], b);
      assert Prefixed(a[0]) + (Wire(a[1..]) + Wire(b)) == (Prefixed(a[0]) + Wire(a[1..])) + Wire(b);
    }
  }

  lemma LowDigit(d: nat, m: nat)
    requires d < 256
    ensures (d + 256 * m) % 256 == d && (d + 256 * m) / 256 == m
  {
  }

  lemma Digits(b0: nat, b1: nat, b2: nat, b3: nat)
    requires b0 < 256 && b1 < 256 && b2 < 256 && b3 < 256
    ensures var n := b0 + 0x100 * b1 + 0x1_0000 * b2 + 0x100_0000 * b3;
            && n % 256 == b0 && n / 0x100 % 256 == b1
            && n / 0x1_0000 % 256 == b2 && n / 0x100_0000 == b3
  {
    var m2 := b2 + 256 * b3;
    var m1 := b1 + 256 * m2;
    var n := b0 + 256 * m1;
    LowDigit(b0, m1);
    LowDigit(b1, m2);
    LowDigit(b2, b3);
    assert n / 0x1_0000 == n / 256 / 256;
    assert n / 0x100_0000 == n / 256 / 256 / 256;
  }

  lemma LengthUnique(b: Bytes)
    requires |b| == 4
    ensures EncodeLength(DecodeLength(b)) == b
  {
    var n := DecodeLength(b);
    assert n % U32 == n;
    Digits(b[0], b[1], b[2], b[3]);
  }

  lemma WireOne(frame: Bytes)
    ensures Wire([frame]) == Prefixed(frame)
  {
    assert [frame][1..] == [];
    assert Wire([frame]) == Prefixed(frame) + Wire([]);
  }

  // A frame's length field says how much follows it.
  lemma PrefixedStarts(frame: Bytes, rest: Bytes)
    requires |frame| < U32
    ensures DecodeLength(Prefixed(frame) + rest) == |frame|
    ensures (Prefixed(frame) + rest)[4..4 + |frame|] == frame
    ensures (Prefixed(frame) + rest)[4 + |frame|..] == rest
  {
    var w := Prefixed(frame) + rest;
    assert w == EncodeLength(|frame|) + (frame + rest);
    LengthRoundTrip(|frame|, frame + rest);
  }
}
