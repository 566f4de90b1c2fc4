/** The table-driven CRC-32 against its definition bit by bit (section 8 of RFC 1952). */
module Crc32 {

  const POLYNOMIAL: bv32 := 0xEDB88320
  const ALL_ONES: bv32 := 0xFFFFFFFF

  // ------------------------------------------------- words

  function Xor(a: bv32, b: bv32): bv32 { a ^ b }

  function Half(a: bv32): bv32 { a >> 1 }

  predicate Odd(a: bv32) { a & 1 != 0 }

  function LowByte(a: bv32): bv32 { a & 0xFF }

  function HighBytes(a: bv32): bv32 { a >> 8 }

  lemma XorCommutes(a: bv32, b: bv32)
    ensures Xor(a, b) == Xor(b, a) && Xor(a, 0) == a
  {
  }

  lemma XorAssociates(a: bv32, b: bv32, c: bv32)
    ensures Xor(Xor(a, b), c) == Xor(a, Xor(b, c))
  {
  }

  lemma XorCancels(a: bv32, b: bv32)
    ensures Xor(a, Xor(a, b)) == b
  {
  }

  lemma XorLaws(a: bv32, b: bv32, c: bv32)
    ensures Xor(a, b) == Xor(b, a) && Xor(Xor(a, b), c) == Xor(a, Xor(b, c))
    ensures Xor(a, Xor(a, b)) == b && Xor(a, 0) == a
  {
    hide Xor;
    XorCommutes(a, b);
    XorAssociates(a, b, c);
    XorCancels(a, b);
  }

  lemma HalfXor(a: bv32, b: bv32)
    ensures Half(Xor(a, b)) == Xor(Half(a), Half(b)) && (Odd(Xor(a, b)) <==> Odd(a) != Odd(b))
  {
  }

  // ------------------------------------------------- bit by bit

  /** One message bit enters the register at its low end. */
  function FeedBit(crc: bv32, bit: bool): bv32 {
    if Odd(crc) != bit then Xor(POLYNOMIAL, Half(crc)) else Half(crc)
  }

  /** The low `n` bits of `bits`, least significant first. */
  function FeedBits(crc: bv32, bits: bv32, n: nat): bv32
    decreases n
  {
    if n == 0 then crc else FeedBits(FeedBit(crc, Odd(bits)), Half(bits), n - 1)
  }

  function Feed(crc: bv32, message: seq<bv8>): bv32
    decreases |message|
  {
    if message == [] then crc else FeedBits(Feed(crc, message[..|message| - 1]), message[|message| - 1] as bv32, 8)
  }

  function Crc(message: seq<bv8>): bv32 { Xor(Feed(ALL_ONES, message), ALL_ONES) }

  // ------------------------------------------------- the table

  function Shift(c: bv32): bv32 {
    if Odd(c) then Xor(POLYNOMIAL, Half(c)) else Half(c)
  }

  function Shifts(c: bv32, n: nat): bv32
    decreases n
  {
    if n == 0 then c else Shifts(Shift(c), n - 1)
  }

  lemma ShiftLinear(x: bv32, y: bv32)
    ensures Shift(Xor(x, y)) == Xor(Shift(x), Shift(y))
  {
    hide Xor, Half, Odd;
    var p, a, b := POLYNOMIAL, Half(x), Half(y);
    HalfXor(x, y);
    XorLaws(p, a, b);
    XorLaws(a, p, b);
    XorLaws(p, a, Xor(p, b));
    XorLaws(a, p, Xor(p, b));
    XorLaws(p, b, a);
  }

  lemma {:induction false} ShiftsLinear(x: bv32, y: bv32, n: nat)
    ensures Shifts(Xor(x, y), n) == Xor(Shifts(x, n), Shifts(y, n))
    decreases n
  {
    hide Xor, Shift;
    if n > 0 {
      ShiftLinear(x, y);
      ShiftsLinear(Shift(x), Shift(y), n - 1);
    }
  }

  function Halved(v: bv32, n: nat): bv32
    decreases n
  {
    if n == 0 then v else Halved(Half(v), n - 1)
  }

  predicate EndsInZeros(v: bv32, n: nat)
    decreases n
  {
    n == 0 || (!Odd(v) && EndsInZeros(Half(v), n - 1))
  }

  /** Zero bits that leave the register change nothing else. */
  lemma {:induction false} ZerosShiftOut(v: bv32, n: nat)
    requires EndsInZeros(v, n)
    ensures Shifts(v, n) == Halved(v, n)
    decreases n
  {
    hide Xor, Half, Odd;
    if n > 0 { ZerosShiftOut(Half(v), n - 1); }
  }

  function WithoutLowByte(c: bv32): bv32 { c & 0xFFFFFF00 }

  lemma HalvedEight(v: bv32)
    ensures Halved(v, 8) == Half(Half(Half(Half(Half(Half(Half(Half(v))))))))
  {
    hide Half;
    assert Halved(v, 8) == Halved(Half(v), 7) == Halved(Half(Half(v)), 6) == Halved(Half(Half(Half(v))), 5);
    var u := Half(Half(Half(v)));
    assert Halved(u, 5) == Halved(Half(u), 4) == Halved(Half(Half(u)), 3) == Halved(Half(Half(Half(u))), 2);
    var w := Half(Half(Half(u)));
    assert Halved(w, 2) == Halved(Half(w), 1) == Halved(Half(Half(w)), 0);
  }

  lemma EightHalves(c: bv32)
    ensures Half(Half(Half(Half(Half(Half(Half(Half(WithoutLowByte(c))))))))) == HighBytes(c)
  {
  }

  lemma LowBitsGone(c: bv32)
    ensures EndsInZeros(WithoutLowByte(c), 8)
  {
    var v := WithoutLowByte(c);
    var u := Half(Half(Half(Half(v))));
    assert !Odd(v) && !Odd(Half(v)) && !Odd(Half(Half(v))) && !Odd(Half(Half(Half(v))));
    assert !Odd(u) && !Odd(Half(u)) && !Odd(Half(Half(u))) && !Odd(Half(Half(Half(u))));
    hide Half, Odd;
    assert EndsInZeros(Half(Half(u)), 2);
    assert EndsInZeros(u, 4);
    assert EndsInZeros(Half(Half(v)), 6);
  }

  lemma SplitWord(c: bv32)
    ensures c == Xor(LowByte(c), WithoutLowByte(c))
  {
  }

  /** Eight shifts at once: one look at the table. */
  lemma EightShifts(c: bv32)
    ensures Shifts(c, 8) == Xor(Shifts(LowByte(c), 8), HighBytes(c))
  {
    hide Xor, Half, Odd, Shifts, LowByte, HighBytes, WithoutLowByte, Halved, EndsInZeros;
    SplitWord(c);
    ShiftsLinear(LowByte(c), WithoutLowByte(c), 8);
    LowBitsGone(c);
    ZerosShiftOut(WithoutLowByte(c), 8);
    HalvedEight(WithoutLowByte(c));
    EightHalves(c);
  }

  lemma BitThenShift(c: bv32, v: bv32)
    ensures Shift(Xor(c, v)) == Xor(FeedBit(c, Odd(v)), Half(v))
  {
    hide Xor, Half, Odd;
    HalfXor(c, v);
    XorLaws(POLYNOMIAL, Half(c), Half(v));
  }

  /** Mixing the bits in beforehand is the same as feeding them one by one. */
  lemma {:induction false} MixedBits(c: bv32, v: bv32, n: nat)
    ensures Shifts(Xor(c, v), n) == Xor(FeedBits(c, v, n), Halved(v, n))
    decreases n
  {
    hide Xor, Half, Odd, Shift, FeedBit;
    if n > 0 {
      BitThenShift(c, v);
      MixedBits(FeedBit(c, Odd(v)), Half(v), n - 1);
    }
  }

  lemma ByteRunsOut(b: bv8)
    ensures Half(Half(Half(Half(Half(Half(Half(Half(b as bv32)))))))) == 0
    ensures HighBytes(b as bv32) == 0
  {
  }

  lemma HighBytesXor(a: bv32, b: bv32)
    ensures HighBytes(Xor(a, b)) == Xor(HighBytes(a), HighBytes(b))
  {
  }

  /** The step of the loop is the definition's step over one byte. */
  lemma OneByte(crc: bv32, b: bv8)
    ensures Xor(Shifts(LowByte(Xor(crc, b as bv32)), 8), HighBytes(crc)) == FeedBits(crc, b as bv32, 8)
  {
    hide Xor, Half, Odd, Shifts, FeedBits, Halved, LowByte, HighBytes;
    var v := b as bv32;
    EightShifts(Xor(crc, v));
    MixedBits(crc, v, 8);
    HalvedEight(v);
    ByteRunsOut(b);
    HighBytesXor(crc, v);
    XorLaws(HighBytes(crc), 0, 0);
    XorLaws(FeedBits(crc, v, 8), 0, 0);
  }

  // ------------------------------------------------- the code

  method CreateTable() returns (tbl: array<bv32>)
    ensures tbl.Length == 256 && forall i :: 0 <= i < 256 ==> tbl[i] == Shifts(i as bv32, 8)
  {
    hide Xor, Half;
    tbl := new bv32[256];
    for i := 0 to 256
      invariant forall k :: 0 <= k < i ==> tbl[k] == Shifts(k as bv32, 8)
    {
      var c := i as bv32;
      for j := 0 to 8
        invariant Shifts(c, 8 - j) == Shifts(i as bv32, 8)
        invariant forall k :: 0 <= k < i ==> tbl[k] == Shifts(k as bv32, 8)
      {
        if Odd(c) {
          c := Xor(POLYNOMIAL, Half(c));
        } else {
          c := Half(c);
        }
      }
      tbl[i] := c;
    }
  }

  method Crc32OfStream(table: array<bv32>, stream: seq<bv8>) returns (crc: bv32)
    requires table.Length == 256 && forall i :: 0 <= i < 256 ==> table[i] == Shifts(i as bv32, 8)
    ensures crc == Crc(stream)
  {
    hide Xor, Shifts, FeedBits, HighBytes, LowByte, Feed;
    crc := ALL_ONES;
    NoBytes(crc, stream);
    for n := 0 to |stream|
      invariant crc == Feed(ALL_ONES, stream[..n])
    {
      NextByte(ALL_ONES, stream, n);
      var x := TableIndex(Xor(crc, stream[n] as bv32));
      crc := Xor(table[x], HighBytes(crc));
    }
    assert stream[..|stream|] == stream;
    crc := Xor(crc, ALL_ONES);
  }

  lemma NoBytes(crc: bv32, stream: seq<bv8>)
    ensures Feed(crc, stream[..0]) == crc
  {
  }

  /** What one turn of the loop does to the register. */
  lemma NextByte(start: bv32, stream: seq<bv8>, n: nat)
    requires n < |stream|
    ensures var crc := Feed(start, stream[..n]);
            Feed(start, stream[..n + 1]) == Xor(Shifts(LowByte(Xor(crc, stream[n] as bv32)), 8), HighBytes(crc))
  {
    hide Xor, Shifts, FeedBits, HighBytes, LowByte;
    assert stream[..n + 1][..n] == stream[..n];
    OneByte(Feed(start, stream[..n]), stream[n]);
  }

  /** The low byte of a word as an index into the table. */
  function TableIndex(w: bv32): (i: nat)
    ensures i < 256 && i as bv32 == LowByte(w)
  {
    var x := LowByte(w);
    assert x < 256;
    x as int
  }

  // ------------------------------------------------- what it is good for

  lemma ShiftInjective(x: bv32, y: bv32)
    requires Shift(x) == Shift(y)
    ensures x == y
  {
  }

  lemma {:induction false} ShiftsInjective(x: bv32, y: bv32, n: nat)
    requires Shifts(x, n) == Shifts(y, n)
    ensures x == y
    decreases n
  {
    hide Shift;
    if n > 0 {
      ShiftsInjective(Shift(x), Shift(y), n - 1);
      ShiftInjective(x, y);
    }
  }

  /** A byte step loses nothing: register and byte determine each other's difference. */
  lemma FeedByteInjective(c: bv32, d: bv32, a: bv8, b: bv8)
    requires FeedBits(c, a as bv32, 8) == FeedBits(d, b as bv32, 8)
    ensures Xor(c, a as bv32) == Xor(d, b as bv32)
  {
    hide Xor, Half, Odd, Shifts, FeedBits, Halved, LowByte, HighBytes;
    MixedBits(c, a as bv32, 8);
    MixedBits(d, b as bv32, 8);
    HalvedEight(a as bv32);
    HalvedEight(b as bv32);
    ByteRunsOut(a);
    ByteRunsOut(b);
    ShiftsInjective(Xor(c, a as bv32), Xor(d, b as bv32), 8);
  }

  lemma {:induction false} FeedInjective(c: bv32, d: bv32, rest: seq<bv8>)
    requires Feed(c, rest) == Feed(d, rest)
    ensures c == d
    decreases |rest|
  {
    hide Xor, FeedBits;
    if rest != [] {
      var init, b := rest[..|rest| - 1], rest[|rest| - 1];
      FeedByteInjective(Feed(c, init), Feed(d, init), b, b);
      XorLaws(b as bv32, Feed(c, init), 0);
      XorLaws(b as bv32, Feed(d, init), 0);
      XorLaws(Feed(c, init), b as bv32, 0);
      XorLaws(Feed(d, init), b as bv32, 0);
      FeedInjective(c, d, init);
    }
  }

  lemma {:induction false} FeedAppend(c: bv32, a: seq<bv8>, b: seq<bv8>)
    ensures Feed(c, a + b) == Feed(Feed(c, a), b)
    decreases |b|
  {
    hide FeedBits;
    if b == [] {
      assert a + b == a;
    } else {
      FeedAppend(c, a, b[..|b| - 1]);
      assert (a + b)[..|a + b| - 1] == a + b[..|b| - 1];
    }
  }

  /** A change of any single byte, wherever it is, changes the checksum. */
  lemma DetectsOneByte(before: seq<bv8>, a: bv8, b: bv8, after: seq<bv8>)
    requires a != b
    ensures Crc(before + [a] + after) != Crc(before + [b] + after)
  {
    hide Xor, FeedBits, Feed;
    var c := Feed(ALL_ONES, before);
    FeedAppend(ALL_ONES, before + [a], after);
    FeedAppend(ALL_ONES, before + [b], after);
    FeedAppend(ALL_ONES, before, [a]);
    FeedAppend(ALL_ONES, before, [b]);
    if Crc(before + [a] + after) == Crc(before + [b] + after) {
      XorLaws(ALL_ONES, Feed(ALL_ONES, before + [a] + after), 0);
      XorLaws(ALL_ONES, Feed(ALL_ONES, before + [b] + after), 0);
      XorLaws(Feed(ALL_ONES, before + [a] + after), ALL_ONES, 0);
      XorLaws(Feed(ALL_ONES, before + [b] + after), ALL_ONES, 0);
      FeedInjective(Feed(c, [a]), Feed(c, [b]), after);
      OneMoreByte(c, a);
      OneMoreByte(c, b);
      FeedByteInjective(c, c, a, b);
      XorLaws(c, a as bv32, 0);
      XorLaws(c, b as bv32, 0);
    }
  }

  lemma OneMoreByte(c: bv32, a: bv8)
    ensures Feed(c, [a]) == FeedBits(c, a as bv32, 8)
  {
    hide FeedBits;
    assert [a][..0] == [];
  }
}
