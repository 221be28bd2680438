module WebSocketFrame {
  // WebSocket frames (RFC 6455, section 5): the encoder, the copying decoder and
  // the inline header parser, each with its own control flow, and what ties the
  // three together.

  import opened Prelude
  import opened Bits

  type opcode = o: nat | o < 16

  const TEXT: opcode := 1
  const CLOSE: opcode := 8
  const PING: opcode := 9
  const PONG: opcode := 10

  const KEYS := 0x1_0000_0000
  // Section 5.2 allows lengths below 2^63, which is also what a string can hold.
  const LENGTHS := 0x8000_0000_0000_0000

  datatype Frame = Frame(fin: bool, opcode: opcode, mask: bool, key: nat, payload: Bytes)

  // ---- numbers in network order ---------------------------------------------

  function BigEndian(v: nat, n: nat): (b: Bytes)
    ensures |b| == n
  {
    if n == 0 then [] else BigEndian(v / 256, n - 1) + [v % 256]
  }

  function FromBigEndian(b: Bytes): nat {
    if b == [] then 0
    else
      var low: nat := b[|b| - 1];
      FromBigEndian(b[..|b| - 1]) * 256 + low
  }

  lemma {:induction false} BigEndianRoundTrip(v: nat, n: nat)
    requires v < Pow2(8 * n)
    ensures FromBigEndian(BigEndian(v, n)) == v
  {
    if n > 0 {
      var b := BigEndian(v, n);
      assert b[..n - 1] == BigEndian(v / 256, n - 1);
      Pow2Add(8, 8 * (n - 1));
      Pow2Small();
      hide Pow2;
      DivBelow(v, 256, Pow2(8 * (n - 1)));
      BigEndianRoundTrip(v / 256, n - 1);
    }
  }

  lemma {:induction false} FromBigEndianBelow(b: Bytes)
    ensures FromBigEndian(b) < Pow2(8 * |b|)
  {
    if b != [] {
      FromBigEndianBelow(b[..|b| - 1]);
      Pow2Add(8, 8 * (|b| - 1));
      Pow2Small();
    }
  }

  lemma {:induction false} BigEndianOfBytes(b: Bytes)
    ensures BigEndian(FromBigEndian(b), |b|) == b
  {
    if b != [] {
      var front := b[..|b| - 1];
      BigEndianOfBytes(front);
      DivModUnique(FromBigEndian(b), 256, FromBigEndian(front), b[|b| - 1]);
      assert b == front + [b[|b| - 1]];
    }
  }

  // Byte k of an n-byte number is the number shifted right by the bytes after it.
  lemma {:induction false} BigEndianAt(v: nat, n: nat, k: nat)
    requires k < n
    ensures BigEndian(v, n)[k] == Shr(v, 8 * (n - 1 - k)) % 256
  {
    if k < n - 1 {
      BigEndianAt(v / 256, n - 1, k);
      ShrByte(v, n - 2 - k);
    }
  }

  lemma ShrByte(v: nat, k: nat)
    ensures Shr(v / 256, 8 * k) == Shr(v, 8 * (k + 1))
  {
    var q := Pow2(8 * k);
    Pow2Add(8, 8 * k);
    Pow2Small();
    var d, r := v / 256 / q, v / 256 % q;
    DivMod(v / 256, q);
    assert v == 256 * (q * d + r) + v % 256;
    assert 256 * (q * d + r) == (256 * q) * d + 256 * r;
    DivModUnique(v, 256 * q, d, 256 * r + v % 256);
  }

  // ---- masking (section 5.3) ------------------------------------------------------

  function KeyByte(key: nat, i: nat): byte {
    Shr(key, 8 * (3 - i % 4)) % 256
  }

  // The payload octets from stream offset `off` on, each under its key octet.
  function Masked(s: Bytes, key: nat, off: nat): (r: Bytes)
    ensures |r| == |s|
  {
    seq(|s|, i requires 0 <= i < |s| => XorByte(s[i], KeyByte(key, off + i)))
  }

  lemma MaskTwice(s: Bytes, key: nat, off: nat)
    ensures Masked(Masked(s, key, off), key, off) == s
  {
    var m := Masked(s, key, off);
    forall i | 0 <= i < |s| ensures Masked(m, key, off)[i] == s[i] {
      assert m[i] == XorByte(s[i], KeyByte(key, off + i));
    }
  }

  lemma MaskAppend(a: Bytes, b: Bytes, key: nat, off: nat)
    ensures Masked(a + b, key, off) == Masked(a, key, off) + Masked(b, key, off + |a|)
  {
    assert |Masked(a + b, key, off)| == |a| + |b|;
    forall i | 0 <= i < |a + b|
      ensures Masked(a + b, key, off)[i] == (Masked(a, key, off) + Masked(b, key, off + |a|))[i]
    {
      if i >= |a| {
        assert (a + b)[i] == b[i - |a|];
        assert off + i == off + |a| + (i - |a|);
      }
    }
  }

  // Masking leaves a payload alone exactly when every key octet it meets is zero.
  lemma MaskIsIdentity(s: Bytes, key: nat)
    ensures Masked(s, key, 0) == s <==> forall i | 0 <= i < |s| :: KeyByte(key, i) == 0
  {
    if Masked(s, key, 0) == s {
      forall i | 0 <= i < |s| ensures KeyByte(key, i) == 0 {
        assert Masked(s, key, 0)[i] == XorByte(s[i], KeyByte(key, i));
      }
    }
  }

  // Octet i of the payload goes under octet i modulo 4 of the masking key, as the
  // key stands on the wire.
  lemma MaskedOctets(s: Bytes, key: nat, off: nat, i: nat)
    requires i < |s|
    ensures Masked(s, key, off)[i] == XorByte(s[i], BigEndian(key, 4)[(off + i) % 4])
  {
    BigEndianAt(key, 4, (off + i) % 4);
  }

  // The in-place unmasking loop over part of a caller's buffer.
  method UnmaskInPlace(buf: array<byte>, at: nat, len: nat, key: nat, off: nat)
    requires at + len <= buf.Length
    modifies buf
    ensures buf[at..at + len] == Masked(old(buf[at..at + len]), key, off)
    ensures buf[..at] == old(buf[..at]) && buf[at + len..] == old(buf[at + len..])
  {
    for i := 0 to len
      invariant forall j | at <= j < at + i :: buf[j] == XorByte(old(buf[j]), KeyByte(key, off + (j - at)))
      invariant forall j | 0 <= j < buf.Length && !(at <= j < at + i) :: buf[j] == old(buf[j])
    {
      buf[at + i] := XorByte(buf[at + i], KeyByte(key, off + i));
    }
    ghost var was := old(buf[at..at + len]);
    forall k | 0 <= k < len ensures buf[at..at + len][k] == Masked(was, key, off)[k] {
      assert was[k] == old(buf[at + k]);
    }
  }

  // ---- encoding (section 5.2) -------------------------------------------------------

  function EncodedSize(len: nat, mask: bool): nat {
    2 + len + (if len < 126 then 0 else if len <= 65535 then 2 else 8) + (if mask then 4 else 0)
  }

  function FirstByte(fin: bool, op: opcode): byte {
    (if fin then 128 else 0) + op
  }

  function LengthField(len: nat, mask: bool): Bytes {
    var m := if mask then 128 else 0;
    if len < 126 then [m + len]
    else if len <= 65535 then [m + 126] + BigEndian(len, 2)
    else [m + 127] + BigEndian(len, 8)
  }

  function HeaderBytes(f: Frame, mask: bool, key: nat): Bytes {
    [FirstByte(f.fin, f.opcode)] + LengthField(|f.payload|, mask) + (if mask then BigEndian(key, 4) else [])
  }

  function Encode(f: Frame, mask: bool, key: nat): Bytes {
    HeaderBytes(f, mask, key) + (if mask then Masked(f.payload, key, 0) else f.payload)
  }

  lemma EncodeSize(f: Frame, mask: bool, key: nat)
    ensures |Encode(f, mask, key)| == EncodedSize(|f.payload|, mask)
    ensures |HeaderBytes(f, mask, key)| == EncodedSize(|f.payload|, mask) - |f.payload| <= 14
  {
  }

  // Two buffers that agree from position q on.
  ghost predicate Same(a: Bytes, b: Bytes, q: nat) {
    |a| == |b| && forall k | q <= k < |a| :: a[k] == b[k]
  }

  // *p++ = x
  method Put(buf: array<byte>, p: nat, x: byte) returns (q: nat)
    requires p < buf.Length
    modifies buf
    ensures q == p + 1 && buf[..q] == old(buf[..p]) + [x] && Same(buf[..], old(buf[..]), q)
  {
    buf[p] := x;
    q := p + 1;
  }

  // The n bytes of v, most significant first.
  method PutBigEndian(buf: array<byte>, p: nat, v: nat, n: nat) returns (q: nat)
    requires p + n <= buf.Length
    modifies buf
    ensures q == p + n && buf[..q] == old(buf[..p]) + BigEndian(v, n) && Same(buf[..], old(buf[..]), q)
  {
    q := p;
    while q < p + n
      invariant p <= q <= p + n
      invariant buf[..q] == old(buf[..p]) + BigEndian(v, n)[..q - p]
      invariant Same(buf[..], old(buf[..]), q)
    {
      BigEndianAt(v, n, q - p);
      q := Put(buf, q, Shr(v, 8 * (n - 1 - (q - p))) % 256);
    }
    assert BigEndian(v, n)[..n] == BigEndian(v, n);
  }

  // The first byte and the length field, in the branches of the encoder.
  method PutLength(f: Frame, buf: array<byte>, mask: bool) returns (p: nat)
    requires buf.Length >= 1 + |LengthField(|f.payload|, mask)|
    modifies buf
    ensures p == 1 + |LengthField(|f.payload|, mask)|
    ensures buf[..p] == [FirstByte(f.fin, f.opcode)] + LengthField(|f.payload|, mask)
    ensures Same(buf[..], old(buf[..]), p)
  {
    hide BigEndian;
    var len := |f.payload|;
    p := Put(buf, 0, FirstByte(f.fin, f.opcode));
    var b1: byte := if mask then 128 else 0;
    if len < 126 {
      p := Put(buf, p, b1 + len);
    } else if len <= 65535 {
      Assoc([FirstByte(f.fin, f.opcode)], [b1 + 126], BigEndian(len, 2));
      p := Put(buf, p, b1 + 126);
      p := PutBigEndian(buf, p, len, 2);
    } else {
      Assoc([FirstByte(f.fin, f.opcode)], [b1 + 127], BigEndian(len, 8));
      p := Put(buf, p, b1 + 127);
      p := PutBigEndian(buf, p, len, 8);
    }
  }

  // encode_into.  A zero key in the frame is replaced by a random one.
  method EncodeInto(f: Frame, buf: array<byte>, mask: bool, random: nat) returns (n: nat)
    requires |f.payload| < LENGTHS
    modifies buf
    ensures buf.Length < EncodedSize(|f.payload|, mask) ==> n == 0 && buf[..] == old(buf[..])
    ensures buf.Length >= EncodedSize(|f.payload|, mask) ==>
              && n == EncodedSize(|f.payload|, mask)
              && buf[..n] == Encode(f, mask, if f.key == 0 then random else f.key)
              && Same(buf[..], old(buf[..]), n)
  {
    if buf.Length < EncodedSize(|f.payload|, mask) {
      return 0;
    }
    var p := PutLength(f, buf, mask);
    if mask {
      var mk := f.key;
      if mk == 0 {
        mk := random;
      }
      p := PutBigEndian(buf, p, mk, 4);
      p := PutMasked(buf, p, f.payload, mk);
    } else {
      p := PutAll(buf, p, f.payload);
    }
    n := p;
  }

  method PutMasked(buf: array<byte>, p: nat, payload: Bytes, key: nat) returns (q: nat)
    requires p + |payload| <= buf.Length
    modifies buf
    ensures q == p + |payload| && buf[..q] == old(buf[..p]) + Masked(payload, key, 0) && Same(buf[..], old(buf[..]), q)
  {
    q := p;
    while q < p + |payload|
      invariant p <= q <= p + |payload|
      invariant buf[..q] == old(buf[..p]) + Masked(payload, key, 0)[..q - p]
      invariant Same(buf[..], old(buf[..]), q)
    {
      q := Put(buf, q, XorByte(payload[q - p], KeyByte(key, q - p)));
    }
  }

  // memcpy
  method PutAll(buf: array<byte>, p: nat, payload: Bytes) returns (q: nat)
    requires p + |payload| <= buf.Length
    modifies buf
    ensures q == p + |payload| && buf[..q] == old(buf[..p]) + payload && Same(buf[..], old(buf[..]), q)
  {
    q := p + |payload|;
    forall i | 0 <= i < |payload| {
      buf[p + i] := payload[i];
    }
  }

  // ---- decoding ---------------------------------------------------------------

  datatype Header = Header(fin: bool, opcode: opcode, masked: bool, key: nat, len: nat, size: nat)

  // What the first bytes of a buffer say, once enough of them are there.
  function ParseHeader(d: Bytes): (h: Option<Header>)
    ensures h.Some? ==> 2 <= h.value.size <= |d| && h.value.size <= 14
  {
    if |d| < 2 then None
    else
      var fin, op, masked, n7 := d[0] >= 128, d[0] % 16, d[1] >= 128, d[1] % 128;
      var p := if n7 == 126 then 4 else if n7 == 127 then 10 else 2;
      if |d| < p then None
      else
        var len := if n7 < 126 then n7 else FromBigEndian(d[2..p]);
        if !masked then Some(Header(fin, op, false, 0, len, p))
        else if |d| < p + 4 then None
        else Some(Header(fin, op, true, FromBigEndian(d[p..p + 4]), len, p + 4))
  }

  lemma Powers()
    ensures Pow2(8) == 256 && Pow2(16) == 65536 && Pow2(32) == KEYS && Pow2(64) == WORD
  {
    Pow2Small();
    Pow2Add(8, 8);
    Pow2Add(16, 16);
    WordIsPow2();
  }

  lemma FieldBelow(b: Bytes)
    ensures |b| == 2 ==> FromBigEndian(b) < 65536
    ensures |b| == 4 ==> FromBigEndian(b) < KEYS
    ensures |b| == 8 ==> FromBigEndian(b) < WORD
  {
    Powers();
    FromBigEndianBelow(b);
  }

  lemma HeaderBounds(d: Bytes)
    requires ParseHeader(d).Some?
    ensures ParseHeader(d).value.len < WORD && ParseHeader(d).value.key < KEYS
  {
    var n7 := d[1] % 128;
    var p := if n7 == 126 then 4 else if n7 == 127 then 10 else 2;
    FieldBelow(d[2..p]);
    if d[1] >= 128 {
      FieldBelow(d[p..p + 4]);
    }
  }

  // Header and payload length as the 64-bit sum both parsers compare with.
  function Declared(h: Header): nat {
    (h.size + h.len) % WORD
  }

  // TooLong: a payload no string can hold; the copy throws.
  datatype Result = Incomplete | TooLong | Decoded(frame: Frame, consumed: nat)

  function Decode(d: Bytes): (r: Result)
    ensures r.Decoded? ==> 2 <= r.consumed <= |d|
  {
    match ParseHeader(d)
    case None => Incomplete
    case Some(h) =>
      if |d| < Declared(h) then Incomplete
      else if h.len >= LENGTHS then TooLong
      else
        var raw := d[h.size..h.size + h.len];
        Decoded(Frame(h.fin, h.opcode, h.masked, h.key, if h.masked then Masked(raw, h.key, 0) else raw),
                h.size + h.len)
  }

  // Sections 5.2 and 5.3 on the octets of the wire: what a decoded frame says of
  // each octet of its header, and each payload octet under the key octet four
  // before the payload, counted modulo 4.
  lemma DecodedOctets(d: Bytes, i: nat)
    requires Decode(d).Decoded?
    ensures var r, n7 := Decode(d), d[1] % 128;
            var ext := if n7 < 126 then 0 else if n7 == 126 then 2 else 8;
            var h := 2 + ext + if r.frame.mask then 4 else 0;
            && r.frame.fin == (d[0] >= 128) && r.frame.opcode == d[0] % 16 && r.frame.mask == (d[1] >= 128)
            && h <= |d| && r.consumed == h + |r.frame.payload| <= |d|
            && (n7 < 126 ==> |r.frame.payload| == n7)
            && BigEndian(|r.frame.payload|, ext) == d[2..2 + ext]
            && (r.frame.mask ==> BigEndian(r.frame.key, 4) == d[h - 4..h])
            && (i < |r.frame.payload| ==>
                  r.frame.payload[i] == if r.frame.mask then XorByte(d[h + i], d[h - 4 + i % 4]) else d[h + i])
  {
    hide BigEndian, FromBigEndian, ParseHeader, Masked, Decode;
    DecodedIs(d);
    var h := ParseHeader(d).value;
    HeaderOctets(d);
    if h.masked && i < h.len {
      MaskedOctets(d[h.size..h.size + h.len], h.key, 0, i);
      assert d[h.size - 4..h.size][i % 4] == d[h.size - 4 + i % 4];
    }
  }

  lemma DecodedIs(d: Bytes)
    requires Decode(d).Decoded?
    ensures var h := ParseHeader(d);
            && h.Some? && h.value.size + h.value.len <= |d|
            && var raw := d[h.value.size..h.value.size + h.value.len];
               Decode(d) == Decoded(Frame(h.value.fin, h.value.opcode, h.value.masked, h.value.key,
                                          if h.value.masked then Masked(raw, h.value.key, 0) else raw),
                                    h.value.size + h.value.len)
  {
    hide ParseHeader, Masked;
    var h := ParseHeader(d).value;
    HeaderBounds(d);
    assert Declared(h) == h.size + h.len;
  }

  lemma HeaderOctets(d: Bytes)
    requires ParseHeader(d).Some?
    ensures var h, n7 := ParseHeader(d).value, d[1] % 128;
            var ext := if n7 < 126 then 0 else if n7 == 126 then 2 else 8;
            && h.fin == (d[0] >= 128) && h.opcode == d[0] % 16 && h.masked == (d[1] >= 128)
            && h.size == 2 + ext + (if h.masked then 4 else 0) <= |d|
            && (n7 < 126 ==> h.len == n7) && BigEndian(h.len, ext) == d[2..2 + ext]
            && (h.masked ==> BigEndian(h.key, 4) == d[h.size - 4..h.size])
  {
    var h := ParseHeader(d).value;
    var p := if h.masked then h.size - 4 else h.size;
    NoOctets(h.len);
    hide BigEndian, FromBigEndian;
    BigEndianOfBytes(d[2..p]);
    if h.masked {
      BigEndianOfBytes(d[p..p + 4]);
    }
  }

  lemma NoOctets(v: nat)
    ensures BigEndian(v, 0) == []
  {
  }

  // The copying decoder's loop over its own payload.
  method Unmask(raw: Bytes, key: nat) returns (payload: Bytes)
    ensures payload == Masked(raw, key, 0)
  {
    payload := raw;
    for i := 0 to |raw|
      invariant |payload| == |raw|
      invariant payload == Masked(raw, key, 0)[..i] + raw[i..]
    {
      payload := payload[i := XorByte(payload[i], KeyByte(key, i))];
    }
  }

  // The decoder's walk over the header.
  method DecodeHeader(data: Bytes) returns (h: Option<Header>)
    ensures h == ParseHeader(data)
  {
    if |data| < 2 {
      return None;
    }
    var fin := data[0] / 128 % 2 == 1;
    var op: opcode := data[0] % 16;
    var masked := data[1] / 128 % 2 == 1;
    var plen: nat := data[1] % 128;
    var pos := 2;
    if plen == 126 {
      if |data| < 4 {
        return None;
      }
      plen := TwoBytes(data[2], data[3]);
      TwoByteField(data);
      pos := 4;
    } else if plen == 127 {
      if |data| < 10 {
        return None;
      }
      plen := ReadBigEndian(data, 2, 8);
      pos := 10;
    }
    var key := 0;
    if masked {
      if |data| < pos + 4 {
        return None;
      }
      key := FourBytes(data[pos], data[pos + 1], data[pos + 2], data[pos + 3]);
      FourByteField(data, pos);
      pos := pos + 4;
    }
    h := Some(Header(fin, op, masked, key, plen, pos));
  }

  // decode
  method DecodeFrame(data: Bytes) returns (r: Result)
    ensures r == Decode(data)
  {
    var header := DecodeHeader(data);
    if header.None? {
      return Incomplete;
    }
    var h := header.value;
    if |data| < (h.size + h.len) % WORD {
      return Incomplete;
    }
    if h.len >= LENGTHS {
      return TooLong;
    }
    var payload := data[h.size..h.size + h.len];
    if h.masked {
      payload := Unmask(payload, h.key);
    }
    r := Decoded(Frame(h.fin, h.opcode, h.masked, h.key, payload), h.size + h.len);
  }

  function TwoBytes(hi: byte, lo: byte): nat {
    var (h: nat, l: nat) := (hi, lo);
    h * 0x100 + l
  }

  function FourBytes(a: byte, b: byte, c: byte, d: byte): nat {
    var (a: nat, b: nat, c: nat, d: nat) := (a, b, c, d);
    a * 0x100_0000 + b * 0x1_0000 + c * 0x100 + d
  }

  lemma TwoByteField(d: Bytes)
    requires |d| >= 4
    ensures TwoBytes(d[2], d[3]) == FromBigEndian(d[2..4])
  {
    var b := d[2..4];
    assert b[..1] == [d[2]];
    assert FromBigEndian([d[2]]) == FromBigEndian([]) * 256 + d[2] by { assert [d[2]][..0] == []; }
  }

  lemma FourByteField(d: Bytes, p: nat)
    requires p + 4 <= |d|
    ensures FourBytes(d[p], d[p + 1], d[p + 2], d[p + 3]) == FromBigEndian(d[p..p + 4])
  {
    var b := d[p..p + 4];
    assert b[..3][..2] == b[..2] && b[..2][..1] == b[..1] && b[..1][..0] == [];
    assert FromBigEndian(b[..1]) == d[p];
    assert FromBigEndian(b[..2]) == FromBigEndian(b[..1]) * 256 + d[p + 1];
    assert FromBigEndian(b[..3]) == FromBigEndian(b[..2]) * 256 + d[p + 2];
  }

  // plen = (plen << 8) | data[...]
  method ReadBigEndian(data: Bytes, at: nat, n: nat) returns (v: nat)
    requires at + n <= |data|
    ensures v == FromBigEndian(data[at..at + n])
  {
    v := 0;
    for i := 0 to n
      invariant v == FromBigEndian(data[at..at + i])
    {
      assert data[at..at + i + 1][..i] == data[at..at + i];
      v := v * 256 + data[at + i];
    }
  }

  // ---- inline parsing ------------------------------------------------------------

  datatype Info = Info(
    opcode: opcode,
    fin: bool,
    masked: bool,
    key: nat,
    payloadAt: Option<nat>,  // payload_ptr - data, None for a null pointer
    payloadLen: nat,
    headerLen: nat,
    total: nat)

  function Inline(d: Bytes): Info {
    if |d| < 2 then Info(TEXT, true, false, 0, None, 0, 0, 0)
    else
      match ParseHeader(d)
      case None => Info(d[0] % 16, d[0] >= 128, d[1] >= 128, 0, None, 0, 0, 0)
      case Some(h) =>
        Info(h.opcode, h.fin, h.masked, h.key, if Declared(h) > |d| then None else Some(h.size),
             h.len, h.size, Declared(h))
  }

  // What it says of the octets, also where the frame or its header is not whole:
  // the first two are read as soon as they are there, the rest with the header.
  lemma InlineOctets(d: Bytes)
    ensures |d| < 2 ==> Inline(d) == Info(1, true, false, 0, None, 0, 0, 0)
    ensures |d| >= 2 ==>
            var info, n7 := Inline(d), d[1] % 128;
            var ext := if n7 < 126 then 0 else if n7 == 126 then 2 else 8;
            var h := 2 + ext + if d[1] >= 128 then 4 else 0;
            && info.fin == (d[0] >= 128) && info.opcode == d[0] % 16 && info.masked == (d[1] >= 128)
            && (|d| < h ==> info.payloadAt.None? && info.headerLen == info.payloadLen == info.total == 0)
            && (h <= |d| ==>
                  && info.headerLen == h && BigEndian(info.payloadLen, ext) == d[2..2 + ext]
                  && (n7 < 126 ==> info.payloadLen == n7)
                  && (info.masked ==> BigEndian(info.key, 4) == d[h - 4..h])
                  && (info.payloadAt.Some? ==> info.payloadAt.value == h))
  {
    hide BigEndian, FromBigEndian;
    if ParseHeader(d).Some? {
      HeaderOctets(d);
    }
  }

  // parse_inline_frame
  method ParseInlineFrame(data: Bytes) returns (info: Info)
    ensures info == Inline(data)
  {
    info := Info(TEXT, true, false, 0, None, 0, 0, 0);
    if |data| < 2 {
      return;
    }
    info := info.(fin := data[0] / 128 % 2 == 1, opcode := data[0] % 16, masked := data[1] / 128 % 2 == 1);
    var plen: nat := data[1] % 128;
    var pos := 2;
    if plen == 126 {
      if |data| < 4 {
        return;
      }
      plen := TwoBytes(data[2], data[3]);
      TwoByteField(data);
      pos := 4;
    } else if plen == 127 {
      if |data| < 10 {
        return;
      }
      plen := ReadBigEndian(data, 2, 8);
      pos := 10;
    }
    if info.masked {
      if |data| < pos + 4 {
        return;
      }
      info := info.(key := FourBytes(data[pos], data[pos + 1], data[pos + 2], data[pos + 3]));
      FourByteField(data, pos);
      pos := pos + 4;
    }
    info := info.(headerLen := pos, payloadLen := plen, total := (pos + plen) % WORD);
    if (pos + plen) % WORD > |data| {
      return;
    }
    info := info.(payloadAt := Some(pos));
  }

  // ---- what they promise -----------------------------------------------------------

  lemma SlicesOfPrefix(d: Bytes, e: Bytes, n: nat, a: nat, b: nat)
    requires a <= b <= n <= |d| && d[..n] <= e
    ensures d[a..b] == e[a..b] && d[..a] <= e
  {
    assert d[..n] == e[..n];
    assert d[a..b] == d[..n][a..b] && e[a..b] == e[..n][a..b];
    assert d[..a] == d[..n][..a] && e[..a] == e[..n][..a];
  }

  // A header depends on its own bytes only.
  lemma HeaderStable(d: Bytes, e: Bytes)
    requires ParseHeader(d).Some? && d[..ParseHeader(d).value.size] <= e
    ensures ParseHeader(e) == ParseHeader(d)
  {
    var n := ParseHeader(d).value.size;
    var n7 := d[1] % 128;
    var p := if n7 == 126 then 4 else if n7 == 127 then 10 else 2;
    assert d[..n][0] == d[0] && d[..n][1] == d[1];
    SlicesOfPrefix(d, e, n, 2, p);
    if d[1] >= 128 {
      SlicesOfPrefix(d, e, n, p, p + 4);
    }
  }

  lemma HeaderCut(d: Bytes, k: nat)
    requires ParseHeader(d).Some? && k < ParseHeader(d).value.size
    ensures ParseHeader(d[..k]).None?
  {
  }

  // A decoded frame occupies the front of the buffer: the same bytes decode to
  // it whatever follows.
  lemma DecodeStable(d: Bytes, e: Bytes)
    requires Decode(d).Decoded? && d[..Decode(d).consumed] <= e
    ensures Decode(e) == Decode(d)
  {
    hide FromBigEndian, Masked;
    var h := ParseHeader(d).value;
    var n := h.size + h.len;
    assert n == Decode(d).consumed;
    SlicesOfPrefix(d, e, n, h.size, n);
    HeaderStable(d, e);
  }

  // Only an incomplete answer can change when bytes arrive.
  lemma DecodeExtends(s: Bytes, t: Bytes)
    requires !Decode(s).Incomplete?
    ensures Decode(s + t) == Decode(s)
  {
    if Decode(s).Decoded? {
      var n := Decode(s).consumed;
      assert s[..n] == (s + t)[..n];
      DecodeStable(s, s + t);
    } else {
      var n := ParseHeader(s).value.size;
      assert s[..n] == (s + t)[..n];
      HeaderStable(s, s + t);
    }
  }

  // No shorter piece of it decodes.
  lemma DecodeCut(d: Bytes, k: nat)
    requires Decode(d).Decoded? && k < Decode(d).consumed
    ensures Decode(d[..k]) == Incomplete
  {
    var h := ParseHeader(d).value;
    if k < h.size {
      HeaderCut(d, k);
    } else {
      SlicesOfPrefix(d, d, h.size + h.len, h.size, k);
      assert d[..k][..h.size] == d[..h.size];
      HeaderStable(d, d[..k]);
    }
  }

  // The length field says how long it is and what length it carries.
  lemma LengthFieldParses(len: nat, mask: bool)
    requires len < LENGTHS
    ensures var f := LengthField(len, mask);
            && f[0] % 128 == (if len < 126 then len else if len <= 65535 then 126 else 127)
            && (f[0] >= 128 <==> mask)
            && |f| == (if len < 126 then 1 else if len <= 65535 then 3 else 9)
            && (len >= 126 ==> FromBigEndian(f[1..]) == len)
  {
    Powers();
    hide Pow2;
    if len >= 126 {
      var n := if len <= 65535 then 2 else 8;
      assert LengthField(len, mask)[1..] == BigEndian(len, n);
      BigEndianRoundTrip(len, n);
    }
  }

  lemma HeaderParts(b0: byte, field: Bytes, kb: Bytes, rest: Bytes)
    requires |field| >= 1
    ensures var d, p := [b0] + field + kb + rest, 1 + |field|;
            d[0] == b0 && d[1] == field[0] && d[2..p] == field[1..] && d[p..p + |kb|] == kb
  {
    var d, p := [b0] + field + kb + rest, 1 + |field|;
    assert d[1..p] == field;
    assert d[2..p] == d[1..p][1..];
  }

  lemma HeaderOfEncode(f: Frame, mask: bool, key: nat, rest: Bytes)
    requires |f.payload| < LENGTHS && key < KEYS
    ensures var size := EncodedSize(|f.payload|, mask) - |f.payload|;
            ParseHeader(HeaderBytes(f, mask, key) + rest)
              == Some(Header(f.fin, f.opcode, mask, if mask then key else 0, |f.payload|, size))
  {
    hide LengthField, BigEndian, FromBigEndian, Pow2;
    var field := LengthField(|f.payload|, mask);
    LengthFieldParses(|f.payload|, mask);
    HeaderParts(FirstByte(f.fin, f.opcode), field, if mask then BigEndian(key, 4) else [], rest);
    if mask {
      Powers();
      BigEndianRoundTrip(key, 4);
    }
  }

  lemma MiddleSlice(a: Bytes, b: Bytes, c: Bytes)
    ensures (a + (b + c))[|a|..|a| + |b|] == b
  {
  }

  // A header and as many bytes as it announces decode to those bytes, unmasked.
  lemma DecodeBody(f: Frame, mask: bool, key: nat, body: Bytes, rest: Bytes)
    requires |body| == |f.payload| < LENGTHS && key < KEYS
    ensures Decode(HeaderBytes(f, mask, key) + (body + rest))
              == Decoded(Frame(f.fin, f.opcode, mask, if mask then key else 0,
                               if mask then Masked(body, key, 0) else body),
                         EncodedSize(|f.payload|, mask))
  {
    hide HeaderBytes, ParseHeader, Masked;
    var head := HeaderBytes(f, mask, key);
    var d := head + (body + rest);
    HeaderOfEncode(f, mask, key, body + rest);
    EncodeSize(f, mask, key);
    var h := ParseHeader(d).value;
    assert h.size == |head| && h.len == |body|;
    MiddleSlice(head, body, rest);
    assert Declared(h) == h.size + h.len <= |d|;
  }

  // Decoding an encoded frame, whatever follows it, gives back flags, opcode,
  // payload and exact size.
  lemma DecodeOfEncode(f: Frame, mask: bool, key: nat, rest: Bytes)
    requires |f.payload| < LENGTHS && key < KEYS
    ensures Decode(Encode(f, mask, key) + rest)
              == Decoded(Frame(f.fin, f.opcode, mask, if mask then key else 0, f.payload),
                         EncodedSize(|f.payload|, mask))
  {
    var body := if mask then Masked(f.payload, key, 0) else f.payload;
    DecodeBody(f, mask, key, body, rest);
    MaskTwice(f.payload, key, 0);
    assert Encode(f, mask, key) + rest == HeaderBytes(f, mask, key) + (body + rest);
  }

  // Every proper prefix of an encoded frame is reported incomplete.
  lemma PrefixIncomplete(f: Frame, mask: bool, key: nat, k: nat)
    requires |f.payload| < LENGTHS && key < KEYS && k < |Encode(f, mask, key)|
    ensures Decode(Encode(f, mask, key)[..k]) == Incomplete
  {
    var d := Encode(f, mask, key);
    EncodeSize(f, mask, key);
    DecodeOfEncode(f, mask, key, []);
    assert d + [] == d;
    DecodeCut(d, k);
  }

  // Where the decoder finds a frame the inline parser finds the same one: same
  // flags, same length and, once unmasked in place, the same payload.
  lemma InlineFollowsDecode(d: Bytes)
    requires Decode(d).Decoded?
    ensures var i, r := Inline(d), Decode(d);
            && i.payloadAt == Some(i.headerLen) && i.total == r.consumed == i.headerLen + i.payloadLen <= |d|
            && i.fin == r.frame.fin && i.opcode == r.frame.opcode
            && var raw := d[i.headerLen..i.total];
               r.frame.payload == if i.masked then Masked(raw, i.key, 0) else raw
  {
    hide FromBigEndian, Masked;
    var h := ParseHeader(d).value;
    assert Declared(h) == h.size + h.len;
  }

  // Both find a frame on the same buffers, precisely when header and payload
  // length add up within 64 bits, or what is left of a sum that wrapped is
  // still out of reach.
  lemma ParsersAgree(d: Bytes)
    requires |d| < LENGTHS
    ensures (Inline(d).payloadAt.Some? <==> Decode(d).Decoded?)
            <==> (ParseHeader(d).Some? ==>
                    var h := ParseHeader(d).value;
                    h.size + h.len < WORD || |d| < h.size + h.len - WORD)
  {
    if ParseHeader(d).Some? {
      HeaderBounds(d);
    }
    if Decode(d).Decoded? {
      InlineFollowsDecode(d);
    }
  }

  lemma {:induction false} AllOnes(n: nat)
    ensures FromBigEndian(seq(n, _ => 255)) == Pow2(8 * n) - 1
  {
    if n > 0 {
      assert seq(n, _ => 255)[..n - 1] == seq(n - 1, _ => 255);
      AllOnes(n - 1);
      Pow2Add(8, 8 * (n - 1));
      Powers();
    }
  }

  // A header that declares 2^64 - 10 bytes behind its own ten: the sum is zero,
  // and the inline parser takes the bare header for a whole frame.
  lemma WrappedLength() returns (d: Bytes)
    ensures d == [130, 127] + seq(7, _ => 255) + [246]
    ensures Inline(d).payloadAt == Some(10) && Inline(d).payloadLen == WORD - 10
    ensures Decode(d) == TooLong
  {
    hide FromBigEndian;
    var ones: Bytes := seq(7, _ => 255);
    d := [130, 127] + ones + [246];
    NearWord(ones);
    assert d[2..10] == ones + [246];
  }

  lemma NearWord(ones: Bytes)
    requires ones == seq(7, _ => 255)
    ensures FromBigEndian(ones + [246]) == WORD - 10
  {
    AllOnes(7);
    Powers();
    Pow2Add(8, 56);
    hide Pow2;
    assert (ones + [246])[..7] == ones;
    assert FromBigEndian(ones + [246]) == FromBigEndian(ones) * 256 + 246;
  }

  // Under the length limit of section 5.2 the parsers always agree.
  lemma ParsersAgreeUnderLimit(d: Bytes)
    requires |d| < LENGTHS && (ParseHeader(d).Some? ==> ParseHeader(d).value.len < LENGTHS)
    ensures Inline(d).payloadAt.Some? <==> Decode(d).Decoded?
    ensures Decode(d).Incomplete? && ParseHeader(d).Some? ==> |d| < Inline(d).total
  {
    ParsersAgree(d);
    if ParseHeader(d).Some? {
      HeaderBounds(d);
    }
  }

  // write_frame sends a mask key but the bare payload.
  function Written(f: Frame, masked: bool): Bytes {
    HeaderBytes(f, masked, f.key) + f.payload
  }

  // A peer recovers the payload exactly when the connection does not mask, or
  // every key octet in use is zero.
  lemma WrittenDecodes(f: Frame, masked: bool)
    requires |f.payload| < LENGTHS && f.key < KEYS
    ensures var r := Decode(Written(f, masked));
            && r.Decoded? && r.consumed == |Written(f, masked)|
            && (r.frame.payload == f.payload
                <==> masked ==> forall i | 0 <= i < |f.payload| :: KeyByte(f.key, i) == 0)
  {
    DecodeBody(f, masked, f.key, f.payload, []);
    EncodeSize(f, masked, f.key);
    assert Written(f, masked) == HeaderBytes(f, masked, f.key) + (f.payload + []);
    MaskIsIdentity(f.payload, f.key);
  }

  // One byte under a key whose first octet is 1: the peer reads another byte.
  lemma MaskedWriteIsLost()
    ensures var f := Frame(true, TEXT, true, 0x100_0000, [65]);
            Decode(Written(f, true)).Decoded? && Decode(Written(f, true)).frame.payload != f.payload
  {
    hide Decode, Written, KeyByte, Shr;
    var f := Frame(true, TEXT, true, 0x100_0000, [65]);
    WrittenDecodes(f, true);
    FirstKeyByte();
  }

  lemma FirstKeyByte()
    ensures KeyByte(0x100_0000, 0) == 1
  {
    Pow2Add(16, 8);
    Powers();
  }
}
