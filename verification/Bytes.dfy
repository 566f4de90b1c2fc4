/** Bytes, 32-bit words and the two byte orders used by SQLite WAL files. */
module Bytes {

  type byte = x: int | 0 <= x < 256
  type u32 = x: int | 0 <= x < 0x1_0000_0000

  datatype ByteOrder = LittleEndian | BigEndian

  /** The word whose bytes are `a`, `b`, `c`, `d`, most significant first. */
  function Join(a: byte, b: byte, c: byte, d: byte): u32 {
    var w: int := a;
    w * 0x100_0000 + b as int * 0x1_0000 + c as int * 0x100 + d as int
  }

  /** The big-endian word stored at offset `at`. */
  function BE(b: seq<byte>, at: nat): u32
    requires at + 4 <= |b|
  {
    Join(b[at], b[at + 1], b[at + 2], b[at + 3])
  }

  /** The word stored at offset `at`, in the given byte order. */
  function Word(bo: ByteOrder, b: seq<byte>, at: nat): u32
    requires at + 4 <= |b|
  {
    match bo
    case BigEndian => BE(b, at)
    case LittleEndian => Join(b[at + 3], b[at + 2], b[at + 1], b[at])
  }

  function PutBE(v: u32): (r: seq<byte>)
    ensures |r| == 4
  {
    [v / 256 / 256 / 256, v / 256 / 256 % 256, v / 256 % 256, v % 256]
  }

  /** 32-bit addition, wrapping around. */
  function Add32(a: u32, b: u32): u32 {
    var t: int := a;
    if t + b < 0x1_0000_0000 then t + b else t + b - 0x1_0000_0000
  }

  lemma Add32Injective(a: u32, b: u32, c: u32)
    requires Add32(a, c) == Add32(b, c)
    ensures a == b
  {
  }

  lemma JoinDigits(v: u32)
    ensures Join(v / 256 / 256 / 256, v / 256 / 256 % 256, v / 256 % 256, v % 256) == v
  {
  }

  /** Decoding undoes encoding, wherever the word sits in the buffer. */
  lemma DecodePut(v: u32, b: seq<byte>, at: nat)
    requires at + 4 <= |b| && b[at..at + 4] == PutBE(v)
    ensures BE(b, at) == v
  {
    var w := b[at..at + 4];
    assert w[0] == b[at] && w[1] == b[at + 1] && w[2] == b[at + 2] && w[3] == b[at + 3];
    JoinDigits(v);
  }

  /** Encoding undoes decoding: the four bytes are a function of the word. */
  lemma PutDecode(b: seq<byte>, at: nat)
    requires at + 4 <= |b|
    ensures PutBE(BE(b, at)) == b[at..at + 4]
  {
    var p := PutBE(BE(b, at));
    DecodePut(BE(b, at), p, 0);
    JoinInjective(p[0], p[1], p[2], p[3], b[at], b[at + 1], b[at + 2], b[at + 3]);
  }

  lemma JoinInjective(a: byte, b: byte, c: byte, d: byte, a': byte, b': byte, c': byte, d': byte)
    requires Join(a, b, c, d) == Join(a', b', c', d')
    ensures a == a' && b == b' && c == c' && d == d'
  {
  }
}
