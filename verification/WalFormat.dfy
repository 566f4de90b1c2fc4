/** The SQLite write-ahead log as a file format: header, frames, running checksum.
    Sections 4.1 and 4.2 of the SQLite Database File Format. */
module WalFormat {
  import opened Bytes

  const HEADER_SIZE: nat := 32
  const FRAME_HEADER_SIZE: nat := 24
  const SUPPORTED_VERSION: u32 := 3007000
  const MAGIC_LE: u32 := 0x377f0682
  const MAGIC_BE: u32 := 0x377f0683

  // ---------------------------------------------------------------- checksum

  datatype Sum = Sum(s0: u32, s1: u32)

  /** One step of the running checksum, over the two words of an 8-byte unit. */
  function Mix(s: Sum, x0: u32, x1: u32): Sum {
    var s0 := Add32(s.s0, Add32(x0, s.s1));
    Sum(s0, Add32(s.s1, Add32(x1, s0)))
  }

  function Checksum(bo: ByteOrder, s: Sum, b: seq<byte>): Sum
    requires |b| % 8 == 0
    decreases |b|
  {
    if |b| < 8 then s
    else
      assert |b[8..]| % 8 == 0;
      Checksum(bo, Mix(s, Word(bo, b, 0), Word(bo, b, 4)), b[8..])
  }

  /** For a fixed state the step is injective in its two words, and for fixed words in the state. */
  lemma MixInjective(s: Sum, x0: u32, x1: u32, s': Sum, x0': u32, x1': u32)
    requires Mix(s, x0, x1) == Mix(s', x0', x1')
    ensures s == s' ==> x0 == x0' && x1 == x1'
    ensures x0 == x0' && x1 == x1' ==> s == s'
  {
    if s == s' {
      MixWords(s, x0, x1, x0', x1');
    }
    if x0 == x0' && x1 == x1' {
      MixState(s, s', x0, x1);
    }
  }

  lemma MixWords(s: Sum, x0: u32, x1: u32, x0': u32, x1': u32)
    requires Mix(s, x0, x1) == Mix(s, x0', x1')
    ensures x0 == x0' && x1 == x1'
  {
    hide Add32;
    var m := Mix(s, x0, x1);
    AddSwap(s.s1, Add32(x1, m.s0), Add32(x1', m.s0));
    Add32Injective(x1, x1', m.s0);
    AddSwap(s.s0, Add32(x0, s.s1), Add32(x0', s.s1));
    Add32Injective(x0, x0', s.s1);
  }

  lemma MixState(s: Sum, s': Sum, x0: u32, x1: u32)
    requires Mix(s, x0, x1) == Mix(s', x0, x1)
    ensures s == s'
  {
    hide Add32;
    var m := Mix(s, x0, x1);
    Add32Injective(s.s1, s'.s1, Add32(x1, m.s0));
    Add32Injective(s.s0, s'.s0, Add32(x0, s.s1));
  }

  lemma AddSwap(a: u32, b: u32, c: u32)
    ensures Add32(a, b) == Add32(a, c) ==> b == c
  {
    if Add32(a, b) == Add32(a, c) { Add32Injective(b, c, a); }
  }

  /** A running checksum never forgets where it started. */
  lemma {:induction false} ChecksumKeepsState(bo: ByteOrder, s: Sum, s': Sum, b: seq<byte>)
    requires |b| % 8 == 0
    ensures Checksum(bo, s, b) == Checksum(bo, s', b) <==> s == s'
    decreases |b|
  {
    hide Mix, Word;
    if |b| >= 8 {
      var x0, x1 := Word(bo, b, 0), Word(bo, b, 4);
      ChecksumKeepsState(bo, Mix(s, x0, x1), Mix(s', x0, x1), b[8..]);
      if Mix(s, x0, x1) == Mix(s', x0, x1) { MixInjective(s, x0, x1, s', x0, x1); }
    }
  }

  lemma {:induction false} ChecksumAppend(bo: ByteOrder, s: Sum, a: seq<byte>, b: seq<byte>)
    requires |a| % 8 == 0 && |b| % 8 == 0
    ensures Checksum(bo, s, a + b) == Checksum(bo, Checksum(bo, s, a), b)
    decreases |a|
  {
    hide Mix;
    if a == [] {
      assert a + b == b;
    } else {
      assert (a + b)[8..] == a[8..] + b;
      ChecksumAppend(bo, Mix(s, Word(bo, a, 0), Word(bo, a, 4)), a[8..], b);
    }
  }

  /** Damage confined to one aligned 8-byte unit always changes the checksum. */
  lemma ChecksumDetectsUnit(bo: ByteOrder, s: Sum, a: seq<byte>, u: seq<byte>, v: seq<byte>, b: seq<byte>)
    requires |a| % 8 == 0 && |b| % 8 == 0 && |u| == |v| == 8 && u != v
    ensures Checksum(bo, s, a + u + b) != Checksum(bo, s, a + v + b)
  {
    hide Checksum;
    var t := Checksum(bo, s, a);
    ChecksumAppend(bo, s, a + u, b);
    ChecksumAppend(bo, s, a + v, b);
    ChecksumAppend(bo, s, a, u);
    ChecksumAppend(bo, s, a, v);
    ChecksumKeepsState(bo, Checksum(bo, t, u), Checksum(bo, t, v), b);
    if Checksum(bo, t, u) == Checksum(bo, t, v) {
      UnitInjective(bo, t, u, v);
    }
  }

  lemma ChecksumUnit(bo: ByteOrder, t: Sum, u: seq<byte>)
    requires |u| == 8
    ensures Checksum(bo, t, u) == Mix(t, Word(bo, u, 0), Word(bo, u, 4))
  {
    assert u[8..] == [];
  }

  lemma UnitInjective(bo: ByteOrder, t: Sum, u: seq<byte>, v: seq<byte>)
    requires |u| == |v| == 8
    requires Checksum(bo, t, u) == Checksum(bo, t, v)
    ensures u == v
  {
    hide Mix, Word;
    ChecksumUnit(bo, t, u);
    ChecksumUnit(bo, t, v);
    MixInjective(t, Word(bo, u, 0), Word(bo, u, 4), t, Word(bo, v, 0), Word(bo, v, 4));
    WordInjective(bo, u, v, 0);
    WordInjective(bo, u, v, 4);
  }

  lemma WordInjective(bo: ByteOrder, u: seq<byte>, v: seq<byte>, at: nat)
    requires at + 4 <= |u| == |v|
    requires Word(bo, u, at) == Word(bo, v, at)
    ensures u[at] == v[at] && u[at + 1] == v[at + 1] && u[at + 2] == v[at + 2] && u[at + 3] == v[at + 3]
  {
    match bo
    case BigEndian =>
      JoinInjective(u[at], u[at + 1], u[at + 2], u[at + 3], v[at], v[at + 1], v[at + 2], v[at + 3]);
    case LittleEndian =>
      JoinInjective(u[at + 3], u[at + 2], u[at + 1], u[at], v[at + 3], v[at + 2], v[at + 1], v[at]);
  }

  // ------------------------------------------------------------------ header

  datatype Header = Header(magic: u32, version: u32, pageSize: u32, seqNo: u32,
                           salt1: u32, salt2: u32, ck1: u32, ck2: u32)
  {
    predicate KnownMagic() { magic == MAGIC_LE || magic == MAGIC_BE }

    function Order(): ByteOrder {
      if magic == MAGIC_LE then LittleEndian else BigEndian
    }

    function Start(): Sum { Sum(ck1, ck2) }

    function FrameSize(): nat { FRAME_HEADER_SIZE + PageSize() }

    function PageSize(): nat { pageSize }

    function Encode(): (r: seq<byte>)
      ensures |r| == HEADER_SIZE
    {
      PutBE(magic) + PutBE(version) + PutBE(pageSize) + PutBE(seqNo) +
      PutBE(salt1) + PutBE(salt2) + PutBE(ck1) + PutBE(ck2)
    }

    /** A header that a reader accepts. */
    predicate Sound() {
      KnownMagic() && version == SUPPORTED_VERSION &&
      HeaderSum(Order(), Encode()[..24]) == Start()
    }
  }

  datatype Err = Ok | Eof | InvalidMagic | UnsupportedVersion | BufferMismatch | OpenTransaction | ShortRead

  /** The checksum over the first 24 bytes of a header. */
  function HeaderSum(bo: ByteOrder, b: seq<byte>): Sum
    requires |b| == 24
  {
    Checksum(bo, Sum(0, 0), b)
  }

  function HeaderAt(f: seq<byte>): Header
    requires |f| >= HEADER_SIZE
  {
    Header(BE(f, 0), BE(f, 4), BE(f, 8), BE(f, 12), BE(f, 16), BE(f, 20), BE(f, 24), BE(f, 28))
  }

  /** What reading the header of `f` reports; `Ok` exactly when it is accepted. */
  function HeaderErr(f: seq<byte>): Err {
    if |f| < HEADER_SIZE then Eof
    else
      var h, summed := HeaderAt(f), f[..24];
      if !h.KnownMagic() then InvalidMagic
      else if HeaderSum(h.Order(), summed) != h.Start() then Eof
      else if h.version != SUPPORTED_VERSION then UnsupportedVersion
      else Ok
  }

  lemma EncodeHeaderAt(f: seq<byte>)
    requires |f| >= HEADER_SIZE
    ensures HeaderAt(f).Encode() == f[..HEADER_SIZE]
  {
    hide PutBE, BE;
    PutDecode(f, 0); PutDecode(f, 4); PutDecode(f, 8); PutDecode(f, 12);
    PutDecode(f, 16); PutDecode(f, 20); PutDecode(f, 24); PutDecode(f, 28);
    assert f[..32] == f[0..4] + f[4..8] + f[8..12] + f[12..16] + f[16..20] + f[20..24] + f[24..28] + f[28..32];
  }

  lemma HeaderAtEncode(h: Header, rest: seq<byte>)
    ensures HeaderAt(h.Encode() + rest) == h
  {
    hide PutBE, BE;
    var f := h.Encode() + rest;
    DecodePut(h.magic, f, 0); DecodePut(h.version, f, 4);
    DecodePut(h.pageSize, f, 8); DecodePut(h.seqNo, f, 12);
    DecodePut(h.salt1, f, 16); DecodePut(h.salt2, f, 20);
    DecodePut(h.ck1, f, 24); DecodePut(h.ck2, f, 28);
  }

  /** A reader accepts a file exactly when the file starts with the encoding of a sound header. */
  lemma HeaderAcceptedIff(f: seq<byte>)
    ensures HeaderErr(f) == Ok <==>
            |f| >= HEADER_SIZE && HeaderAt(f).Sound() && f[..HEADER_SIZE] == HeaderAt(f).Encode()
  {
    if |f| >= HEADER_SIZE {
      EncodeHeaderAt(f);
      assert f[..24] == f[..HEADER_SIZE][..24];
    }
  }

  // ------------------------------------------------------------------ frames

  /** A WAL frame as an iterator hands it out. */
  datatype Frame = Frame(pgno: u32, commit: u32, data: seq<byte>)

  /** Where a frame sits in a WAL file. */
  datatype CFrame = CFrame(pgno: u32, commit: u32, offset: nat)

  function FrameSum(h: Header, s: Sum, fr: Frame): Sum
    requires |fr.data| % 8 == 0
  {
    Checksum(h.Order(), Checksum(h.Order(), s, PutBE(fr.pgno) + PutBE(fr.commit)), fr.data)
  }

  function EncodeFrame(h: Header, s: Sum, fr: Frame): (r: seq<byte>)
    requires |fr.data| % 8 == 0
    ensures |r| == FRAME_HEADER_SIZE + |fr.data|
  {
    var t := FrameSum(h, s, fr);
    PutBE(fr.pgno) + PutBE(fr.commit) + PutBE(h.salt1) + PutBE(h.salt2) + PutBE(t.s0) + PutBE(t.s1) + fr.data
  }

  predicate PageSized(h: Header, frs: seq<Frame>) {
    h.PageSize() % 8 == 0 && forall i :: 0 <= i < |frs| ==> |frs[i].data| == h.PageSize()
  }

  function EncodeFrames(h: Header, s: Sum, frs: seq<Frame>): (r: seq<byte>)
    requires PageSized(h, frs)
    decreases |frs|
  {
    if frs == [] then []
    else EncodeFrame(h, s, frs[0]) + EncodeFrames(h, FrameSum(h, s, frs[0]), frs[1..])
  }

  /** The WAL file holding exactly these frames. */
  function EncodeWal(h: Header, frs: seq<Frame>): seq<byte>
    requires PageSized(h, frs)
  {
    h.Encode() + EncodeFrames(h, h.Start(), frs)
  }

  /** The checksum after all of `frs`. */
  function SumAfter(h: Header, s: Sum, frs: seq<Frame>): Sum
    requires PageSized(h, frs)
    decreases |frs|
  {
    if frs == [] then s else SumAfter(h, FrameSum(h, s, frs[0]), frs[1..])
  }

  lemma {:induction false} EncodeFramesSnoc(h: Header, s: Sum, frs: seq<Frame>, fr: Frame)
    requires PageSized(h, frs + [fr]) && PageSized(h, frs)
    ensures |fr.data| % 8 == 0
    ensures EncodeFrames(h, s, frs + [fr]) == EncodeFrames(h, s, frs) + EncodeFrame(h, SumAfter(h, s, frs), fr)
    ensures SumAfter(h, s, frs + [fr]) == FrameSum(h, SumAfter(h, s, frs), fr)
    decreases |frs|
  {
    hide FrameSum, EncodeFrame;
    assert (frs + [fr])[|frs|] == fr;
    if frs == [] {
      assert frs + [fr] == [fr];
      assert [fr][1..] == [];
    } else {
      assert (frs + [fr])[1..] == frs[1..] + [fr];
      assert PageSized(h, frs[1..] + [fr]);
      EncodeFramesSnoc(h, FrameSum(h, s, frs[0]), frs[1..], fr);
    }
  }

  // --------------------------------------------------------- reading frames

  predicate SlotHeader(f: seq<byte>, h: Header, pos: nat) {
    pos + FRAME_HEADER_SIZE <= |f| && BE(f, pos + 8) == h.salt1 && BE(f, pos + 12) == h.salt2
  }

  /** The page stored in the frame at `pos`. */
  function PageAt(f: seq<byte>, h: Header, pos: nat): (r: seq<byte>)
    requires pos + h.FrameSize() <= |f|
    ensures |r| == h.PageSize()
  {
    f[pos + FRAME_HEADER_SIZE..pos + h.FrameSize()]
  }

  function FrameAt(f: seq<byte>, h: Header, pos: nat): Frame
    requires pos + h.FrameSize() <= |f|
  {
    Frame(BE(f, pos), BE(f, pos + 4), PageAt(f, h, pos))
  }

  /** The frame at `pos` is whole and continues the checksum chain from `s`. */
  predicate SlotSound(f: seq<byte>, h: Header, pos: nat, s: Sum)
    requires h.PageSize() % 8 == 0
  {
    pos + h.FrameSize() <= |f| &&
    FrameSum(h, s, FrameAt(f, h, pos)) == Sum(BE(f, pos + 16), BE(f, pos + 20))
  }

  function CFrameAt(f: seq<byte>, pos: nat): CFrame
    requires pos + FRAME_HEADER_SIZE <= |f|
  {
    CFrame(BE(f, pos), BE(f, pos + 4), pos)
  }

  /** Frames accepted from `pos` when every checksum is verified. */
  function FullFrom(f: seq<byte>, h: Header, pos: nat, s: Sum): seq<CFrame>
    requires h.PageSize() % 8 == 0
    decreases |f| - pos
  {
    if SlotHeader(f, h, pos) && SlotSound(f, h, pos, s)
    then [CFrameAt(f, pos)] + FullFrom(f, h, pos + h.FrameSize(), FrameSum(h, s, FrameAt(f, h, pos)))
    else []
  }

  /** Frames accepted from `pos` when only the salts are compared. */
  function FastFrom(f: seq<byte>, h: Header, pos: nat): seq<CFrame>
    decreases |f| - pos
  {
    if SlotHeader(f, h, pos)
    then [CFrameAt(f, pos)] + FastFrom(f, h, pos + h.FrameSize())
    else []
  }

  function Full(f: seq<byte>, h: Header): seq<CFrame>
    requires h.PageSize() % 8 == 0
  {
    FullFrom(f, h, HEADER_SIZE, h.Start())
  }

  function Fast(f: seq<byte>, h: Header): seq<CFrame> {
    FastFrom(f, h, HEADER_SIZE)
  }

  /** Every frame whose salts match is whole and checksum-valid. */
  predicate AllSound(f: seq<byte>, h: Header, pos: nat, s: Sum)
    requires h.PageSize() % 8 == 0
    decreases |f| - pos
  {
    SlotHeader(f, h, pos) ==>
      SlotSound(f, h, pos, s) && AllSound(f, h, pos + h.FrameSize(), FrameSum(h, s, FrameAt(f, h, pos)))
  }

  /** Skipping the checksums gives the same frames and offsets exactly when
      every salt-matching frame is sound; frames left over from an earlier WAL
      (other salts) do not matter. */
  lemma {:induction false} FastRefinesFull(f: seq<byte>, h: Header, pos: nat, s: Sum)
    requires h.PageSize() % 8 == 0
    ensures FastFrom(f, h, pos) == FullFrom(f, h, pos, s) <==> AllSound(f, h, pos, s)
    decreases |f| - pos
  {
    hide FrameSum, BE;
    if SlotHeader(f, h, pos) && SlotSound(f, h, pos, s) {
      var next, t := pos + h.FrameSize(), FrameSum(h, s, FrameAt(f, h, pos));
      FastRefinesFull(f, h, next, t);
      var c := CFrameAt(f, pos);
      assert ([c] + FastFrom(f, h, next))[1..] == FastFrom(f, h, next);
      assert ([c] + FullFrom(f, h, next, t))[1..] == FullFrom(f, h, next, t);
    }
  }

  /** A frame that can be loaded from the file it was indexed in. */
  predicate Loadable(f: seq<byte>, h: Header, c: CFrame) {
    c.offset + h.FrameSize() <= |f|
  }

  function Load(f: seq<byte>, h: Header, c: CFrame): Frame
    requires Loadable(f, h, c)
  {
    Frame(c.pgno, c.commit, PageAt(f, h, c.offset))
  }

  function LoadAll(f: seq<byte>, h: Header, cs: seq<CFrame>): (r: seq<Frame>)
    requires forall i :: 0 <= i < |cs| ==> Loadable(f, h, cs[i])
    ensures |r| == |cs| && forall i :: 0 <= i < |cs| ==> r[i] == Load(f, h, cs[i])
    ensures h.PageSize() % 8 == 0 ==> PageSized(h, r)
  {
    seq(|cs|, i requires 0 <= i < |cs| => Load(f, h, cs[i]))
  }

  /** Frames in file order, none before `pos`. */
  predicate Increasing(pos: nat, cs: seq<CFrame>) {
    (forall i :: 0 <= i < |cs| ==> pos <= cs[i].offset) &&
    (forall i, j :: 0 <= i < j < |cs| ==> cs[i].offset < cs[j].offset)
  }

  lemma {:induction false} FullShape(f: seq<byte>, h: Header, pos: nat, s: Sum)
    requires h.PageSize() % 8 == 0
    ensures var cs := FullFrom(f, h, pos, s);
            Increasing(pos, cs) &&
            (forall i :: 0 <= i < |cs| ==> Loadable(f, h, cs[i]) && Load(f, h, cs[i]) == FrameAt(f, h, cs[i].offset))
    decreases |f| - pos
  {
    hide FrameSum, BE;
    if SlotHeader(f, h, pos) && SlotSound(f, h, pos, s) {
      FullShape(f, h, pos + h.FrameSize(), FrameSum(h, s, FrameAt(f, h, pos)));
    }
  }

  lemma {:induction false} FastShape(f: seq<byte>, h: Header, pos: nat)
    ensures Increasing(pos, FastFrom(f, h, pos))
    ensures forall i :: 0 <= i < |FastFrom(f, h, pos)| ==>
              FastFrom(f, h, pos)[i].offset + FRAME_HEADER_SIZE <= |f|
    decreases |f| - pos
  {
    hide BE;
    if SlotHeader(f, h, pos) {
      FastShape(f, h, pos + h.FrameSize());
    }
  }
}
