/** Writing the frames of an iterator out as a WAL file, and what the pipelines
    scanner-to-writer produce. */
module WalWriter {
  import opened Bytes
  import opened WalFormat
  import opened WalTheory
  import opened WalReader
  import opened WalScanner

  /** The destination of a write. */
  class ByteSink {
    var bytes: seq<byte>

    constructor ()
      ensures bytes == []
    {
      bytes := [];
    }

    method Write(b: seq<byte>) returns (n: nat)
      modifies this
      ensures bytes == old(bytes) + b && n == |b|
    {
      bytes, n := bytes + b, |b|;
    }
  }

  /** The two implementations of the WAL iterator interface. */
  datatype WalIterator = FromFull(full: FullScanner) | FromCompacting(small: CompactingScanner) {

    ghost function Repr(): set<object> {
      match this
      case FromFull(s) => {s, s.reader}
      case FromCompacting(s) => {s}
    }

    function Header(): Header {
      match this
      case FromFull(s) => s.header
      case FromCompacting(s) => s.header
    }

    ghost predicate Valid()
      reads Repr()
    {
      match this
      case FromFull(s) => s.Valid()
      case FromCompacting(s) => s.Valid()
    }

    ghost function Left(): Stream
      requires Valid()
      reads Repr()
    {
      match this
      case FromFull(s) => Stream(s.Left(), true)
      case FromCompacting(s) => s.Left()
    }

    method Next() returns (r: Item)
      requires Valid()
      modifies Repr()
      ensures old(Left()).frames == [] ==> r == if old(Left()).ok then End else Failed
      ensures old(Left()).frames != [] ==>
                Valid() && r == Got(old(Left()).frames[0]) &&
                Left() == Stream(old(Left()).frames[1..], old(Left()).ok)
    {
      match this
      case FromFull(s) => r := s.Next();
      case FromCompacting(s) => r := s.Next();
    }
  }

  class Writer {
    const r: WalIterator
    const rHeader: Header
    const bo: ByteOrder
    var chksum1: u32
    var chksum2: u32

    constructor (it: WalIterator)
      requires it.Header().KnownMagic()
      ensures r == it && rHeader == it.Header() && bo == rHeader.Order()
    {
      r, rHeader := it, it.Header();
      chksum1, chksum2 := it.Header().ck1, it.Header().ck2;
      bo := if it.Header().magic == MAGIC_LE then LittleEndian else BigEndian;
    }

    ghost function Running(): Sum
      reads this
    {
      Sum(chksum1, chksum2)
    }

    method WriteWALHeader(ww: ByteSink) returns (n: nat)
      modifies this, ww
      ensures ww.bytes == old(ww.bytes) + rHeader.Encode() && n == HEADER_SIZE
      ensures Running() == rHeader.Start()
    {
      chksum1, chksum2 := rHeader.ck1, rHeader.ck2;
      n := ww.Write(rHeader.Encode());
    }

    method WriteFrame(ww: ByteSink, fr: Frame) returns (n: nat)
      requires |fr.data| % 8 == 0 && bo == rHeader.Order()
      modifies this, ww
      ensures ww.bytes == old(ww.bytes) + EncodeFrame(rHeader, old(Running()), fr)
      ensures n == FRAME_HEADER_SIZE + |fr.data|
      ensures Running() == FrameSum(rHeader, old(Running()), fr)
    {
      hide Checksum, PutBE;
      var sum := WALChecksum(bo, Sum(chksum1, chksum2), PutBE(fr.pgno) + PutBE(fr.commit));
      sum := WALChecksum(bo, sum, fr.data);
      chksum1, chksum2 := sum.s0, sum.s1;
      var frmHdr := PutBE(fr.pgno) + PutBE(fr.commit) + PutBE(rHeader.salt1) + PutBE(rHeader.salt2) +
                    PutBE(chksum1) + PutBE(chksum2);
      n := ww.Write(frmHdr);
      var nn := ww.Write(fr.data);
      n := n + nn;
    }

    /** One more frame after those already written. */
    method WriteNext(ww: ByteSink, fr: Frame, n: nat, ghost start: seq<byte>, ghost out: seq<Frame>) returns (n': nat)
      requires bo == rHeader.Order() && |fr.data| == rHeader.PageSize()
      requires Emitted(rHeader, start, out, ww.bytes, n, Running())
      modifies this, ww
      ensures Emitted(rHeader, start, out + [fr], ww.bytes, n', Running())
    {
      hide Emitted, FrameSum, EncodeFrame;
      EmittedOne(rHeader, start, out, ww.bytes, n, Running(), fr);
      var nn := WriteFrame(ww, fr);
      n' := n + nn;
    }

    /** Drains the iterator: everything it yields is written, and the count
        returned is the number of bytes written. */
    method WriteTo(ww: ByteSink) returns (n: nat, err: Err)
      requires r.Valid() && this !in r.Repr() && ww !in r.Repr() && bo == rHeader.Order()
      requires PageSized(rHeader, r.Left().frames)
      modifies this, ww, r.Repr()
      ensures err == if old(r.Left()).ok then Ok else ShortRead
      ensures ww.bytes == old(ww.bytes) + EncodeWal(rHeader, old(r.Left()).frames)
      ensures n == |EncodeWal(rHeader, old(r.Left()).frames)|
    {
      hide EncodeWal, WalIterator.Valid, WalIterator.Left, Emitted, PageSized, FrameSum, EncodeFrame, Header.Encode;
      ghost var all, ok := r.Left().frames, r.Left().ok;
      ghost var start, out: seq<Frame> := ww.bytes, [];
      assert rHeader.PageSize() % 8 == 0 by { SizedHeader(rHeader, all); }
      n := WriteWALHeader(ww);
      EmittedNothing(rHeader, start);
      var item := r.Next();
      while item.Got?
        invariant Emitted(rHeader, start, out, ww.bytes, n, Running())
        invariant item.Got? ==> r.Valid() && r.Left().ok == ok && all == out + [item.frame] + r.Left().frames
        invariant !item.Got? ==> all == out && item == if ok then End else Failed
        decreases |all| - |out| + if item.Got? then 1 else 0
      {
        SizedAt(rHeader, all, out, item.frame);
        n := WriteNext(ww, item.frame, n, start, out);
        out := out + [item.frame];
        item := r.Next();
      }
      EmittedAll(rHeader, start, all, ww.bytes, n, Running());
      err := if item == End then Ok else ShortRead;
    }
  }

  /** A writer for the iterator's frames; the magic number picks the checksum byte order. */
  method NewWriter(it: WalIterator) returns (w: Writer?, err: Err)
    ensures err == if it.Header().KnownMagic() then Ok else InvalidMagic
    ensures err == Ok ==> w != null && fresh(w) && w.r == it && w.rHeader == it.Header() && w.bo == w.rHeader.Order()
  {
    if !it.Header().KnownMagic() { return null, InvalidMagic; }
    w := new Writer(it);
    err := Ok;
  }

  // ------------------------------------------------- pipelines

  /** Copying a WAL through a full scan reproduces its valid prefix, byte for byte. */
  method CopyWal(file: seq<byte>) returns (out: seq<byte>, n: nat, err: Err)
    requires HeaderErr(file) == Ok ==> HeaderAt(file).PageSize() % 8 == 0
    ensures err == HeaderErr(file)
    ensures err == Ok ==> out == file[..ValidLength(file)] && n == |out|
  {
    hide EncodeWal, Contents, ValidLength, PageSized;
    var s;
    s, err := NewFullScanner(file);
    if err != Ok { return [], 0, err; }
    HeaderAcceptedIff(file);
    ReadThenWrite(file);
    ContentsSized(file);
    var w, e := NewWriter(FromFull(s));
    var ww := new ByteSink();
    n, err := w.WriteTo(ww);
    out := ww.bytes;
  }

  lemma ContentsSized(f: seq<byte>)
    requires |f| >= HEADER_SIZE && HeaderAt(f).PageSize() % 8 == 0
    ensures PageSized(HeaderAt(f), Contents(f))
  {
  }

  /** Both ways of producing the compacted WAL, side by side. */
  method CompactBothWays(file: seq<byte>, fullScan: bool)
    returns (buf: seq<byte>, errBuf: Err, out: seq<byte>, n: nat, errOut: Err)
    requires HeaderErr(file) == Ok && HeaderAt(file).PageSize() % 8 == 0
    requires !EndsOpen(Accepted(file, HeaderAt(file), fullScan))
    ensures var h := HeaderAt(file);
            var cs := Latest(Accepted(file, h, fullScan), SlotPage);
            errBuf == (if AllLoadable(file, h, cs) then Ok else ShortRead) &&
            errOut == (if StreamOf(file, h, cs).ok then Ok else ShortRead) &&
            out == EncodeWal(h, StreamOf(file, h, cs).frames) && n == |out|
    ensures errBuf == Ok ==> errOut == Ok && buf == out
    ensures fullScan || AllSound(file, HeaderAt(file), HEADER_SIZE, HeaderAt(file).Start()) ==>
              errBuf == Ok && buf == Compacted(file)
  {
    hide EncodeWal, Accepted, Latest, StreamOf, PageSized, LoadAll, Compacted;
    HeaderAcceptedIff(file);
    hide HeaderErr, HeaderAt, AllSound;
    ghost var h := HeaderAt(file);
    ghost var cs := Latest(Accepted(file, h, fullScan), SlotPage);
    StreamComplete(file, h, cs);
    var s, err := NewCompactingScanner(file, fullScan);
    assert s.frames[0..] == s.frames;
    var b;
    b, errBuf := s.Bytes();
    buf := if errBuf == Ok then b[..] else [];
    var w, e := NewWriter(FromCompacting(s));
    var ww := new ByteSink();
    n, errOut := w.WriteTo(ww);
    out := ww.bytes;
    if fullScan || AllSound(file, h, HEADER_SIZE, h.Start()) { SoundScanCompacts(file, fullScan); }
  }

  /** A checked scan, or an unchecked scan of a sound file, loads every frame it
      indexes, and indexes exactly what compaction keeps. */
  lemma SoundScanCompacts(f: seq<byte>, fullScan: bool)
    requires |f| >= HEADER_SIZE && HeaderAt(f).PageSize() % 8 == 0
    requires fullScan || AllSound(f, HeaderAt(f), HEADER_SIZE, HeaderAt(f).Start())
    ensures var h := HeaderAt(f);
            var cs := Latest(Accepted(f, h, fullScan), SlotPage);
            AllLoadable(f, h, cs) && EncodeWal(h, LoadAll(f, h, cs)) == Compacted(f)
  {
    hide EncodeWal, Latest, FullFrom, FastFrom;
    var h := HeaderAt(f);
    FastRefinesFull(f, h, HEADER_SIZE, h.Start());
    FullShape(f, h, HEADER_SIZE, h.Start());
    LatestThenLoad(f, h, Full(f, h));
  }

  predicate LoadableUpToLast(f: seq<byte>, h: Header, cs: seq<CFrame>) {
    forall i :: 0 <= i < |cs| - 1 ==> Loadable(f, h, cs[i])
  }

  /** After a fast scan only the very last frame can be cut short. */
  lemma {:induction false} FastLoadable(f: seq<byte>, h: Header, pos: nat)
    ensures LoadableUpToLast(f, h, FastFrom(f, h, pos))
    decreases |f| - pos
  {
    hide BE;
    if SlotHeader(f, h, pos) {
      var rest := FastFrom(f, h, pos + h.FrameSize());
      FastLoadable(f, h, pos + h.FrameSize());
      assert rest != [] ==> SlotHeader(f, h, pos + h.FrameSize());
      assert rest != [] ==> Loadable(f, h, CFrameAt(f, pos));
    }
  }

  /** When the two outputs part: the page of the last frame is missing
      entirely. Then `Bytes` reports the damage, while the writer takes the
      short read for the end of the WAL and reports success, having dropped
      the commit frame. With any part of that page present, both report it. */
  lemma FastScanOutputs(f: seq<byte>, h: Header)
    ensures var cs := Latest(Fast(f, h), SlotPage);
            (AllLoadable(f, h, cs) <==> Fast(f, h) == [] || Loadable(f, h, Fast(f, h)[|Fast(f, h)| - 1])) &&
            (StreamOf(f, h, cs).ok <==> AllLoadable(f, h, cs) || cs[|cs| - 1].offset + FRAME_HEADER_SIZE == |f|) &&
            (!AllLoadable(f, h, cs) ==> |StreamOf(f, h, cs).frames| == |cs| - 1)
  {
    hide FastFrom, Latest, StreamOf;
    var all := Fast(f, h);
    FastLoadable(f, h, HEADER_SIZE);
    FastShape(f, h, HEADER_SIZE);
    LatestMembers(all, SlotPage);
    LatestUpToLast(f, h, all);
    StreamUpToLast(f, h, Latest(all, SlotPage));
    StreamComplete(f, h, Latest(all, SlotPage));
    var cs := Latest(all, SlotPage);
    if all != [] {
      assert cs[|cs| - 1] == all[|all| - 1];
      assert Loadable(f, h, cs[|cs| - 1]) ==> AllLoadable(f, h, cs);
    }
  }

  lemma LatestUpToLast(f: seq<byte>, h: Header, all: seq<CFrame>)
    requires Sorted(all) && LoadableUpToLast(f, h, all)
    ensures LoadableUpToLast(f, h, Latest(all, SlotPage))
  {
    hide Latest;
    var cs := Latest(all, SlotPage);
    LatestMembers(all, SlotPage);
    LatestSorted(all);
    forall i | 0 <= i < |cs| - 1 ensures Loadable(f, h, cs[i]) {
      assert cs[i] in all;
      var j :| 0 <= j < |all| && all[j] == cs[i];
      assert cs[i].offset < cs[|cs| - 1].offset;
    }
  }

  lemma {:induction false} StreamUpToLast(f: seq<byte>, h: Header, cs: seq<CFrame>)
    requires LoadableUpToLast(f, h, cs)
    ensures cs != [] && !Loadable(f, h, cs[|cs| - 1]) ==>
              |StreamOf(f, h, cs).frames| == |cs| - 1 &&
              StreamOf(f, h, cs).ok == (cs[|cs| - 1].offset + FRAME_HEADER_SIZE >= |f|)
    decreases |cs|
  {
    if |cs| > 1 { StreamUpToLast(f, h, cs[1..]); }
  }

  /** Such files exist for every header with non-empty pages: one frame header and nothing after it. */
  lemma LostCommitExists(h: Header, fr: Frame)
    requires h.Sound() && h.PageSize() % 8 == 0 && h.PageSize() > 0 && |fr.data| == h.PageSize() && fr.commit != 0
    ensures var f := h.Encode() + EncodeFrame(h, h.Start(), fr)[..FRAME_HEADER_SIZE];
            HeaderErr(f) == Ok && HeaderAt(f) == h && !EndsOpen(Fast(f, h)) &&
            StreamOf(f, h, Latest(Fast(f, h), SlotPage)) == Stream([], true) &&
            !AllLoadable(f, h, Latest(Fast(f, h), SlotPage))
  {
    hide PutBE, BE, FrameSum, Checksum;
    var e := EncodeFrame(h, h.Start(), fr);
    var f := h.Encode() + e[..FRAME_HEADER_SIZE];
    HeaderAtEncode(h, e[..FRAME_HEADER_SIZE]);
    HeaderAcceptedIff(f);
    assert f[..HEADER_SIZE] == h.Encode();
    FrameFields(h, h.Start(), fr);
    Embedded(h.Encode(), e[..FRAME_HEADER_SIZE], [], 4, 8);
    Embedded(h.Encode(), e[..FRAME_HEADER_SIZE], [], 8, 12);
    Embedded(h.Encode(), e[..FRAME_HEADER_SIZE], [], 12, 16);
    assert h.Encode() + e[..FRAME_HEADER_SIZE] + [] == f;
    DecodePut(fr.commit, f, HEADER_SIZE + 4);
    DecodePut(h.salt1, f, HEADER_SIZE + 8);
    DecodePut(h.salt2, f, HEADER_SIZE + 12);
    var c := CFrameAt(f, HEADER_SIZE);
    assert FastFrom(f, h, HEADER_SIZE + h.FrameSize()) == [];
    assert Fast(f, h) == [c];
    LatestOfDistinct([c], SlotPage);
  }
}
