/** The WAL reader and the scanner that hands out every valid frame. */
module WalReader {
  import opened Bytes
  import opened WalFormat
  import opened WalTheory

  /** The running checksum of section 4.2, eight bytes at a time. */
  method WALChecksum(bo: ByteOrder, s: Sum, b: seq<byte>) returns (r: Sum)
    requires |b| % 8 == 0
    ensures r == Checksum(bo, s, b)
  {
    hide Mix, Word;
    r := s;
    var i := 0;
    while i < |b|
      invariant 0 <= i <= |b| && i % 8 == 0
      invariant Checksum(bo, s, b) == Checksum(bo, r, b[i..])
    {
      WordAt(bo, b, i, 0);
      WordAt(bo, b, i, 4);
      assert b[i..][8..] == b[i + 8..];
      r := Mix(r, Word(bo, b, i), Word(bo, b, i + 4));
      i := i + 8;
    }
  }

  lemma WordAt(bo: ByteOrder, b: seq<byte>, i: nat, k: nat)
    requires i + k + 4 <= |b|
    ensures Word(bo, b[i..], k) == Word(bo, b, i + k)
  {
  }

  /** File offset of the frame with the given number, counting from zero. */
  function SlotOffset(pageSize: nat, n: nat): nat {
    HEADER_SIZE + n * (FRAME_HEADER_SIZE + pageSize)
  }

  lemma SlotOffsetNext(pageSize: nat, n: nat)
    ensures SlotOffset(pageSize, n + 1) == SlotOffset(pageSize, n) + FRAME_HEADER_SIZE + pageSize
  {
  }

  /** Parses the frames of one file, checking salts and, when the page is read, checksums. */
  class Reader {
    const file: seq<byte>
    var pos: nat
    var frameN: nat
    var bo: ByteOrder
    var magic: u32
    var pageSize: u32
    var seqNo: u32
    var salt1: u32
    var salt2: u32
    var chksum1: u32
    var chksum2: u32

    constructor (f: seq<byte>)
      ensures file == f && pos == 0 && frameN == 0
    {
      file := f;
      pos, frameN, bo := 0, 0, BigEndian;
      magic, pageSize, seqNo, salt1, salt2, chksum1, chksum2 := 0, 0, 0, 0, 0, 0, 0;
    }

    ghost function Running(): Sum
      reads this
    {
      Sum(chksum1, chksum2)
    }

    /** The header has been accepted and `frameN` frames have been passed. */
    ghost predicate Positioned()
      reads this
    {
      HeaderErr(file) == Ok &&
      var h := HeaderAt(file);
      magic == h.magic && bo == h.Order() && pageSize == h.pageSize && seqNo == h.seqNo &&
      salt1 == h.salt1 && salt2 == h.salt2 &&
      pos == SlotOffset(h.PageSize(), frameN)
    }

    /** File offset of the frame read last, zero before the first. */
    function Offset(): int
      reads this
    {
      if frameN == 0 then 0
      else SlotOffset(pageSize, frameN - 1)
    }

    method ReadHeader() returns (err: Err)
      requires pos == 0 && frameN == 0
      modifies this
      ensures err == HeaderErr(file)
      ensures err == Ok ==> Positioned() && frameN == 0 && Running() == HeaderAt(file).Start()
    {
      hide Checksum, BE;
      if |file| < HEADER_SIZE { return Eof; }
      var hdr := file[..HEADER_SIZE];
      HeaderPrefix(file);
      pos := HEADER_SIZE;
      magic := BE(hdr, 0);
      if magic == MAGIC_LE {
        bo := LittleEndian;
      } else if magic == MAGIC_BE {
        bo := BigEndian;
      } else {
        return InvalidMagic;
      }
      var c1, c2 := BE(hdr, 24), BE(hdr, 28);
      assert hdr[..24] == file[..24];
      var v := WALChecksum(bo, Sum(0, 0), hdr[..24]);
      if v != Sum(c1, c2) { return Eof; }
      if BE(hdr, 4) != SUPPORTED_VERSION { return UnsupportedVersion; }
      pageSize, seqNo, salt1, salt2 := BE(hdr, 8), BE(hdr, 12), BE(hdr, 16), BE(hdr, 20);
      chksum1, chksum2 := c1, c2;
      return Ok;
    }

    /** Copies the page of the frame at `pos` into the buffer and verifies its checksum. */
    method ReadPage(data: array<byte>) returns (ok: bool)
      requires Positioned() && HeaderAt(file).PageSize() % 8 == 0
      requires data.Length == HeaderAt(file).PageSize() && pos + FRAME_HEADER_SIZE <= |file|
      modifies this`chksum1, this`chksum2, data
      ensures ok == SlotSound(file, HeaderAt(file), pos, old(Running()))
      ensures ok ==> data[..] == PageAt(file, HeaderAt(file), pos) &&
                     Running() == FrameSum(HeaderAt(file), old(Running()), FrameAt(file, HeaderAt(file), pos))
    {
      hide Checksum, BE, HeaderErr, HeaderAt, PutBE;
      if pos + FRAME_HEADER_SIZE + pageSize > |file| { return false; }
      CopyInto(data, file[pos + FRAME_HEADER_SIZE..pos + FRAME_HEADER_SIZE + pageSize]);
      FrameHeaderBytes(file, pos);
      var sum := WALChecksum(bo, Sum(chksum1, chksum2), file[pos..pos + 8]);
      sum := WALChecksum(bo, sum, data[..]);
      chksum1, chksum2 := sum.s0, sum.s1;
      return sum == Sum(BE(file, pos + 16), BE(file, pos + 20));
    }

    /** Reads the next frame. With a buffer the page is copied into it and the
        checksum verified; without one the page is skipped unseen. */
    method ReadFrame(data: array?<byte>) returns (pgno: u32, commit: u32, err: Err)
      requires Positioned()
      requires data != null ==> HeaderAt(file).PageSize() % 8 == 0
      modifies this`pos, this`frameN, this`chksum1, this`chksum2, data
      ensures data != null && data.Length != HeaderAt(file).PageSize() ==> err == BufferMismatch
      ensures data != null && data.Length == HeaderAt(file).PageSize() ==>
                var h := HeaderAt(file);
                err == (if SlotHeader(file, h, old(pos)) &&
                  SlotSound(file, h, old(pos), old(Running())) then Ok else Eof) &&
                (err == Ok ==> data[..] == PageAt(file, h, old(pos)) &&
                               Running() == FrameSum(h, old(Running()), FrameAt(file, h, old(pos))))
      ensures data == null ==>
                err == (if SlotHeader(file, HeaderAt(file), old(pos)) then Ok else Eof) &&
                Running() == old(Running())
      ensures err == Ok ==>
                Positioned() && frameN == old(frameN) + 1 &&
                pos == old(pos) + HeaderAt(file).FrameSize() &&
                CFrame(pgno, commit, Offset()) == CFrameAt(file, old(pos))
    {
      hide FrameSum, BE, HeaderErr, HeaderAt, SlotOffset;
      if data != null && data.Length != pageSize { return 0, 0, BufferMismatch; }
      if pos + FRAME_HEADER_SIZE > |file| { return 0, 0, Eof; }
      if salt1 != BE(file, pos + 8) || salt2 != BE(file, pos + 12) { return 0, 0, Eof; }
      if data != null {
        var ok := ReadPage(data);
        if !ok { return 0, 0, Eof; }
      }
      pgno, commit, err := BE(file, pos), BE(file, pos + 4), Ok;
      pos := pos + FRAME_HEADER_SIZE + pageSize;
      frameN := frameN + 1;
      SlotOffsetNext(pageSize, frameN - 1);
    }
  }

  lemma HeaderPrefix(f: seq<byte>)
    requires |f| >= HEADER_SIZE
    ensures HeaderAt(f[..HEADER_SIZE]) == HeaderAt(f)
  {
  }

  lemma FrameHeaderBytes(f: seq<byte>, pos: nat)
    requires pos + 8 <= |f|
    ensures PutBE(BE(f, pos)) + PutBE(BE(f, pos + 4)) == f[pos..pos + 8]
  {
    hide PutBE, BE;
    PutDecode(f, pos);
    PutDecode(f, pos + 4);
  }

  method CopyInto(dst: array<byte>, src: seq<byte>)
    requires dst.Length == |src|
    modifies dst
    ensures dst[..] == src
  {
    forall i | 0 <= i < |src| { dst[i] := src[i]; }
    assert dst[..] == src;
  }

  datatype Item = Got(frame: Frame) | End | Failed

  /** The frames a full scan still has to hand out. */
  ghost function FramesFrom(f: seq<byte>, h: Header, pos: nat, s: Sum): seq<Frame>
    requires h.PageSize() % 8 == 0
  {
    FullShape(f, h, pos, s);
    LoadAll(f, h, FullFrom(f, h, pos, s))
  }

  lemma FramesFromStep(f: seq<byte>, h: Header, pos: nat, s: Sum)
    requires h.PageSize() % 8 == 0
    ensures FramesFrom(f, h, pos, s) ==
            if SlotHeader(f, h, pos) && SlotSound(f, h, pos, s)
            then [FrameAt(f, h, pos)] + FramesFrom(f, h, pos + h.FrameSize(), FrameSum(h, s, FrameAt(f, h, pos)))
            else []
  {
    hide FrameSum, BE;
    FullShape(f, h, pos, s);
    if SlotHeader(f, h, pos) && SlotSound(f, h, pos, s) {
      var next, t := pos + h.FrameSize(), FrameSum(h, s, FrameAt(f, h, pos));
      FullShape(f, h, next, t);
      LoadAllCons(f, h, CFrameAt(f, pos), FullFrom(f, h, next, t));
    }
  }

  /** Iterates over all valid frames of a WAL file. */
  class FullScanner {
    const reader: Reader
    const header: Header

    constructor (r: Reader)
      requires r.Positioned() && r.Running() == HeaderAt(r.file).Start()
      ensures reader == r && header == HeaderAt(r.file)
    {
      reader := r;
      header := Header(r.magic, SUPPORTED_VERSION, r.pageSize, r.seqNo, r.salt1, r.salt2, r.chksum1, r.chksum2);
    }

    ghost predicate Valid()
      reads this, reader
    {
      reader.Positioned() && header == HeaderAt(reader.file) && header.PageSize() % 8 == 0
    }

    /** What is still to come. */
    ghost function Left(): seq<Frame>
      requires Valid()
      reads this, reader
    {
      FramesFrom(reader.file, header, reader.pos, reader.Running())
    }

    method Next() returns (r: Item)
      requires Valid()
      modifies reader
      ensures old(Left()) == [] ==> r == End
      ensures old(Left()) != [] ==> Valid() && r == Got(old(Left())[0]) && Left() == old(Left())[1..]
    {
      hide FrameSum, BE, HeaderErr, HeaderAt, FullFrom;
      FramesFromStep(reader.file, header, reader.pos, reader.Running());
      var data := new byte[header.pageSize];
      var pgno, commit, err := reader.ReadFrame(data);
      if err != Ok { return End; }
      r := Got(Frame(pgno, commit, data[..]));
    }
  }

  /** Opens `file` for a full scan; fails exactly as reading the header fails. */
  method NewFullScanner(file: seq<byte>) returns (s: FullScanner?, err: Err)
    requires HeaderErr(file) == Ok ==> HeaderAt(file).PageSize() % 8 == 0
    ensures err == HeaderErr(file)
    ensures err == Ok ==> s != null && fresh(s) && fresh(s.reader) && s.Valid() &&
                          s.reader.file == file && s.Left() == Contents(file)
  {
    hide Checksum, BE;
    var r := new Reader(file);
    err := r.ReadHeader();
    if err != Ok { return null, err; }
    s := new FullScanner(r);
  }
}
