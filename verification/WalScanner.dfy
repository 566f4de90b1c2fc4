/** The scanner that hands out only the last frame of each page. */
module WalScanner {
  import opened Bytes
  import opened WalFormat
  import opened WalTheory
  import opened WalReader

  /** The frames accepted by a scan of the whole file. */
  function Accepted(f: seq<byte>, h: Header, fullScan: bool): seq<CFrame>
    requires fullScan ==> h.PageSize() % 8 == 0
  {
    RestOf(f, h, fullScan, HEADER_SIZE, h.Start())
  }

  /** The frames still to be accepted from `pos`. */
  function RestOf(f: seq<byte>, h: Header, fullScan: bool, pos: nat, s: Sum): seq<CFrame>
    requires fullScan ==> h.PageSize() % 8 == 0
  {
    if fullScan then FullFrom(f, h, pos, s) else FastFrom(f, h, pos)
  }

  predicate Accepts(f: seq<byte>, h: Header, fullScan: bool, pos: nat, s: Sum)
    requires fullScan ==> h.PageSize() % 8 == 0
  {
    SlotHeader(f, h, pos) && (fullScan ==> SlotSound(f, h, pos, s))
  }

  lemma RestStep(f: seq<byte>, h: Header, fullScan: bool, pos: nat, s: Sum)
    requires fullScan ==> h.PageSize() % 8 == 0
    ensures !Accepts(f, h, fullScan, pos, s) ==> RestOf(f, h, fullScan, pos, s) == []
    ensures Accepts(f, h, fullScan, pos, s) ==>
              RestOf(f, h, fullScan, pos, s) ==
              [CFrameAt(f, pos)] +
              RestOf(f, h, fullScan, pos + h.FrameSize(), if fullScan then FrameSum(h, s, FrameAt(f, h, pos)) else s)
  {
    hide FrameSum, BE;
  }

  predicate EndsOpen(cs: seq<CFrame>) {
    cs != [] && cs[|cs| - 1].commit == 0
  }

  // ------------------------------------------------- the page index

  /** The frame that a page number maps to after all of `cs` has been indexed. */
  function LastOf(cs: seq<CFrame>): map<u32, CFrame> {
    if cs == [] then map[] else map[cs[0].pgno := cs[0]] + LastOf(cs[1..])
  }

  lemma {:induction false} LastOfSnoc(cs: seq<CFrame>, c: CFrame)
    ensures LastOf(cs + [c]) == LastOf(cs)[c.pgno := c]
    decreases |cs|
  {
    if cs == [] {
      assert cs + [c] == [c];
      assert [c][1..] == [];
    } else {
      assert (cs + [c])[1..] == cs[1..] + [c];
      LastOfSnoc(cs[1..], c);
    }
  }

  lemma {:induction false} LastOfKeys(cs: seq<CFrame>)
    ensures forall p :: p in LastOf(cs) <==> exists i :: 0 <= i < |cs| && cs[i].pgno == p
    decreases |cs|
  {
    if cs != [] {
      var rest := cs[1..];
      LastOfKeys(rest);
      forall p ensures p in LastOf(cs) <==> exists i :: 0 <= i < |cs| && cs[i].pgno == p {
        if p in LastOf(rest) {
          var i :| 0 <= i < |rest| && rest[i].pgno == p;
          assert cs[i + 1].pgno == p;
        }
        if i :| 0 <= i < |cs| && cs[i].pgno == p {
          if i > 0 { assert rest[i - 1].pgno == p; }
        }
      }
    }
  }

  predicate Indexed(m: map<u32, CFrame>, c: CFrame) {
    c.pgno in m && m[c.pgno] == c
  }

  /** The indexed frames are exactly the last frames of the pages. */
  lemma {:induction false} LastOfIsLatest(cs: seq<CFrame>)
    ensures forall c :: Indexed(LastOf(cs), c) <==> c in Latest(cs, SlotPage)
    decreases |cs|
  {
    if cs != [] {
      var rest := cs[1..];
      LastOfIsLatest(rest);
      LastOfKeys(rest);
      if Repeats(cs, SlotPage) {
        var i :| 1 <= i < |cs| && SlotPage(cs[i]) == SlotPage(cs[0]);
        assert rest[i - 1].pgno == cs[0].pgno;
        assert LastOf(cs) == LastOf(rest);
      } else {
        forall i | 0 <= i < |rest| ensures rest[i].pgno != cs[0].pgno {
          assert SlotPage(cs[i + 1]) != SlotPage(cs[0]);
        }
        IndexedCons(cs[0], LastOf(rest), Latest(rest, SlotPage));
      }
    }
  }

  lemma IndexedCons(c0: CFrame, m: map<u32, CFrame>, r: seq<CFrame>)
    requires c0.pgno !in m && forall c :: Indexed(m, c) <==> c in r
    ensures forall c :: Indexed(map[c0.pgno := c0] + m, c) <==> c in [c0] + r
  {
  }

  predicate Sorted(cs: seq<CFrame>) {
    forall i, j :: 0 <= i < j < |cs| ==> cs[i].offset < cs[j].offset
  }

  lemma {:induction false} LatestSorted(cs: seq<CFrame>)
    requires Sorted(cs)
    ensures Sorted(Latest(cs, SlotPage))
    decreases |cs|
  {
    if cs != [] {
      LatestSorted(cs[1..]);
      LatestMembers(cs[1..], SlotPage);
      var r := Latest(cs[1..], SlotPage);
      forall i | 0 <= i < |r| ensures cs[0].offset < r[i].offset { assert r[i] in cs[1..]; }
    }
  }

  /** No frame of the same page lies further into the file. */
  predicate Furthest(cs: seq<CFrame>, c: CFrame) {
    c in cs && forall d :: d in cs && d.pgno == c.pgno ==> d.offset <= c.offset
  }

  lemma FurthestTail(cs: seq<CFrame>, c: CFrame)
    requires cs != [] && Sorted(cs)
    ensures Furthest(cs, c) <==>
            Furthest(cs[1..], c) || (c == cs[0] && forall d :: d in cs[1..] ==> d.pgno != c.pgno)
  {
    var rest := cs[1..];
    assert forall d :: d in cs <==> d == cs[0] || d in rest;
    assert forall d :: d in rest ==> cs[0].offset < d.offset;
  }

  /** A scan keeps one frame per page, the one furthest into the file, in file
      order, and ends with the frame the file ends with. */
  lemma {:induction false} LatestIsFurthest(cs: seq<CFrame>)
    requires Sorted(cs)
    ensures Sorted(Latest(cs, SlotPage))
    ensures forall c :: c in Latest(cs, SlotPage) <==> Furthest(cs, c)
    ensures cs != [] ==> Latest(cs, SlotPage) != [] && Latest(cs, SlotPage)[|Latest(cs, SlotPage)| - 1] == cs[|cs| - 1]
    decreases |cs|
  {
    LatestMembers(cs, SlotPage);
    LatestSorted(cs);
    if cs != [] {
      var rest := cs[1..];
      LatestIsFurthest(rest);
      hide Furthest;
      forall c ensures c in Latest(cs, SlotPage) <==> Furthest(cs, c) {
        FurthestTail(cs, c);
        RepeatsIff(cs);
        assert c in [cs[0]] + Latest(rest, SlotPage) <==> c == cs[0] || c in Latest(rest, SlotPage);
        assert Furthest(rest, cs[0]) ==> cs[0] in Latest(rest, SlotPage);
      }
    }
  }

  lemma RepeatsIff(cs: seq<CFrame>)
    requires cs != []
    ensures Repeats(cs, SlotPage) <==> exists d :: d in cs[1..] && d.pgno == cs[0].pgno
  {
    if Repeats(cs, SlotPage) {
      var i :| 1 <= i < |cs| && SlotPage(cs[i]) == SlotPage(cs[0]);
      assert cs[i] in cs[1..];
    }
    if d :| d in cs[1..] && d.pgno == cs[0].pgno {
      var i :| 0 <= i < |cs[1..]| && cs[1..][i] == d;
      assert SlotPage(cs[i + 1]) == SlotPage(cs[0]);
    }
  }

  /** Sorting by offset leaves no choice: equal elements, equal order. */
  lemma {:induction false} SortedUnique(a: seq<CFrame>, b: seq<CFrame>)
    requires Sorted(a) && Sorted(b) && forall c :: c in a <==> c in b
    ensures a == b
    decreases |a|
  {
    assert b != [] ==> b[0] in b;
    if a != [] {
      assert a[0] in b && b != [] && b[0] in a;
      assert a[0] == b[0];
      forall c ensures c in a[1..] <==> c in b[1..] {
        assert c in a[1..] <==> c in a && c != a[0] by { Tail(a, c); }
        assert c in b[1..] <==> c in b && c != b[0] by { Tail(b, c); }
      }
      SortedUnique(a[1..], b[1..]);
    }
  }

  lemma Tail(a: seq<CFrame>, c: CFrame)
    requires Sorted(a) && a != []
    ensures c in a[1..] <==> c in a && c != a[0]
  {
    if c in a && c != a[0] {
      var i :| 0 <= i < |a| && a[i] == c;
      assert a[1..][i - 1] == c;
    }
  }

  // ------------------------------------------------- scanning

  method CopyIndex(frames: map<u32, CFrame>, tx: map<u32, CFrame>) returns (m: map<u32, CFrame>)
    ensures m == frames + tx
  {
    m := frames;
    var todo := tx.Keys;
    while todo != {}
      invariant todo <= tx.Keys
      invariant m.Keys == frames.Keys + (tx.Keys - todo)
      invariant forall k :: k in m ==> m[k] == if k in tx && k !in todo then tx[k] else frames[k]
      decreases todo
    {
      var k :| k in todo;
      m := m[k := tx[k]];
      todo := todo - {k};
    }
  }

  /** The state of a scan after the frames `seen`. */
  ghost predicate Tracks(index: map<u32, CFrame>, tx: map<u32, CFrame>, waiting: bool, seen: seq<CFrame>) {
    index + tx == LastOf(seen) && (waiting <==> EndsOpen(seen)) && (!waiting ==> tx == map[])
  }

  lemma TracksNothing()
    ensures Tracks(map[], map[], false, [])
  {
  }

  lemma TracksAll(index: map<u32, CFrame>, tx: map<u32, CFrame>, waiting: bool, seen: seq<CFrame>)
    requires Tracks(index, tx, waiting, seen)
    ensures waiting == EndsOpen(seen)
    ensures index + tx == LastOf(seen)
    ensures !waiting ==> index == LastOf(seen)
  {
  }

  /** Files a frame under its page; a committing frame moves the whole transaction to the index. */
  method Remember(index: map<u32, CFrame>, tx: map<u32, CFrame>, frame: CFrame, ghost seen: seq<CFrame>)
    returns (index': map<u32, CFrame>, tx': map<u32, CFrame>, waiting: bool)
    requires index + tx == LastOf(seen)
    ensures Tracks(index', tx', waiting, seen + [frame])
  {
    LastOfSnoc(seen, frame);
    hide LastOf;
    tx' := tx[frame.pgno := frame];
    assert index + tx' == (index + tx)[frame.pgno := frame];
    if frame.commit == 0 { return index, tx', true; }
    index' := CopyIndex(index, tx');
    assert index' + map[] == index';
    return index', map[], false;
  }

  /** The indexed frames, in whatever order the map yields them. */
  method Collect(frames: map<u32, CFrame>) returns (r: seq<CFrame>)
    requires forall p :: p in frames ==> frames[p].pgno == p
    ensures forall c :: c in r <==> Indexed(frames, c)
    ensures forall i, j :: 0 <= i < j < |r| ==> r[i] != r[j]
  {
    r := [];
    var todo := frames.Keys;
    while todo != {}
      invariant todo <= frames.Keys
      invariant forall c :: c in r <==> Indexed(frames, c) && c.pgno !in todo
      invariant forall i, j :: 0 <= i < j < |r| ==> r[i] != r[j]
      decreases todo
    {
      var p :| p in todo;
      assert frames[p] !in r;
      r := r + [frames[p]];
      todo := todo - {p};
    }
  }

  /** Orders frames by file offset. */
  method SortByOffset(cs: seq<CFrame>) returns (r: seq<CFrame>)
    requires forall i, j :: 0 <= i < j < |cs| ==> cs[i].offset != cs[j].offset
    ensures Sorted(r) && forall c :: c in r <==> c in cs
  {
    r := [];
    for n := 0 to |cs|
      invariant Sorted(r)
      invariant forall c :: c in r <==> c in cs[..n]
    {
      r := Insert(r, cs[n]) by {
        forall i | 0 <= i < |r| ensures r[i].offset != cs[n].offset {
          assert r[i] in cs[..n];
        }
      }
      assert cs[..n + 1] == cs[..n] + [cs[n]];
    }
    assert cs[..|cs|] == cs;
  }

  method Insert(cs: seq<CFrame>, c: CFrame) returns (r: seq<CFrame>)
    requires Sorted(cs) && forall i :: 0 <= i < |cs| ==> cs[i].offset != c.offset
    ensures Sorted(r) && forall x :: x in r <==> x == c || x in cs
  {
    var k := |cs|;
    while k > 0 && c.offset < cs[k - 1].offset
      invariant 0 <= k <= |cs|
      invariant forall i :: k <= i < |cs| ==> c.offset < cs[i].offset
    {
      k := k - 1;
    }
    r := cs[..k] + [c] + cs[k..];
    InsertedAt(cs, k, c);
  }

  lemma InsertedAt(cs: seq<CFrame>, k: nat, c: CFrame)
    requires Sorted(cs) && k <= |cs|
    requires forall i :: k <= i < |cs| ==> c.offset < cs[i].offset
    requires k > 0 ==> cs[k - 1].offset < c.offset
    ensures Sorted(cs[..k] + [c] + cs[k..])
    ensures forall x :: x in cs[..k] + [c] + cs[k..] <==> x == c || x in cs
  {
    InsertedInOrder(cs, k, c);
    hide Sorted;
    InsertedMembers(cs, k, c);
  }

  lemma InsertedInOrder(cs: seq<CFrame>, k: nat, c: CFrame)
    requires Sorted(cs) && k <= |cs|
    requires forall i :: k <= i < |cs| ==> c.offset < cs[i].offset
    requires k > 0 ==> cs[k - 1].offset < c.offset
    ensures Sorted(cs[..k] + [c] + cs[k..])
  {
    var r := cs[..k] + [c] + cs[k..];
    forall i, j | 0 <= i < j < |r| ensures r[i].offset < r[j].offset {
      assert r[i] == if i < k then cs[i] else if i == k then c else cs[i - 1];
      assert r[j] == if j < k then cs[j] else if j == k then c else cs[j - 1];
    }
  }

  lemma InsertedMembers(cs: seq<CFrame>, k: nat, c: CFrame)
    requires k <= |cs|
    ensures forall x :: x in cs[..k] + [c] + cs[k..] <==> x == c || x in cs
  {
    assert cs == cs[..k] + cs[k..];
    forall x ensures x in cs[..k] + [c] + cs[k..] <==> x == c || x in cs {
      assert x in cs <==> x in cs[..k] || x in cs[k..];
    }
  }

  /** The reader stands where exactly the frames `rest` are still to be accepted. */
  ghost predicate Before(r: Reader, fullScan: bool, rest: seq<CFrame>)
    reads r
  {
    r.Positioned() && |r.file| >= HEADER_SIZE && (fullScan ==> HeaderAt(r.file).PageSize() % 8 == 0) &&
    rest == RestOf(r.file, HeaderAt(r.file), fullScan, r.pos, r.Running())
  }

  lemma Passed(f: seq<byte>, h: Header, fullScan: bool, pos: nat, s: Sum, rest: seq<CFrame>)
    requires fullScan ==> h.PageSize() % 8 == 0
    requires rest == RestOf(f, h, fullScan, pos, s)
    ensures rest != [] <==> Accepts(f, h, fullScan, pos, s)
    ensures rest != [] ==>
              rest[0] == CFrameAt(f, pos) &&
              rest[1..] == RestOf(f, h, fullScan, pos + h.FrameSize(),
                                  if fullScan then FrameSum(h, s, FrameAt(f, h, pos)) else s)
  {
    hide RestOf, FrameSum;
    RestStep(f, h, fullScan, pos, s);
  }

  /** Reads one frame of the scan; `more` is false at the end of the valid frames. */
  method NextSlot(r: Reader, buf: array?<byte>, fullScan: bool, ghost rest: seq<CFrame>)
    returns (frame: CFrame, more: bool)
    requires Before(r, fullScan, rest) && (fullScan <==> buf != null)
    requires fullScan ==> buf.Length == HeaderAt(r.file).PageSize()
    modifies r, buf
    ensures more == (rest != [])
    ensures more ==> frame == rest[0] && Before(r, fullScan, rest[1..])
  {
    hide HeaderErr, HeaderAt, RestOf, FrameSum, BE, SlotOffset, SlotSound, SlotHeader, FrameAt, PageAt, CFrameAt;
    hide Reader.Positioned;
    Passed(r.file, HeaderAt(r.file), fullScan, r.pos, r.Running(), rest);
    var pgno, commit, e := r.ReadFrame(buf);
    if e == Eof { return CFrame(0, 0, 0), false; }
    return CFrame(pgno, commit, r.Offset()), true;
  }

  /** Reads every frame, remembering the last committed one of each page.
      Fails exactly when the last accepted frame does not commit. */
  method Scan(r: Reader, fullScan: bool) returns (frames: seq<CFrame>, err: Err)
    requires r.Positioned() && r.frameN == 0 && r.Running() == HeaderAt(r.file).Start()
    requires fullScan ==> HeaderAt(r.file).PageSize() % 8 == 0
    modifies r
    ensures var cs := Accepted(r.file, HeaderAt(r.file), fullScan);
            err == (if EndsOpen(cs) then OpenTransaction else Ok) &&
            (err == Ok ==> frames == Latest(cs, SlotPage))
  {
    assert |r.file| >= HEADER_SIZE && r.pos == HEADER_SIZE;
    ghost var all := Accepted(r.file, HeaderAt(r.file), fullScan);
    assert Before(r, fullScan, all);
    AcceptedSorted(r.file, HeaderAt(r.file), fullScan);
    hide HeaderErr, HeaderAt, Latest, RestOf, Reader.Positioned, LastOf, Before, Accepted;
    var buf: array?<byte> := null;
    if fullScan { buf := new byte[r.pageSize]; }
    var index, waiting := Index(r, buf, fullScan, all);
    if waiting { return [], OpenTransaction; }
    frames := SortIndex(index, all);
    err := Ok;
  }

  /** The loop over the frames. */
  method Index(r: Reader, buf: array?<byte>, fullScan: bool, ghost all: seq<CFrame>)
    returns (index: map<u32, CFrame>, waiting: bool)
    requires Before(r, fullScan, all) && (fullScan <==> buf != null)
    requires fullScan ==> buf.Length == HeaderAt(r.file).PageSize()
    modifies r, buf
    ensures waiting == EndsOpen(all) && (!waiting ==> index == LastOf(all))
  {
    hide HeaderAt, LastOf, Before, EndsOpen;
    var tx: map<u32, CFrame>;
    waiting, tx, index := false, map[], map[];
    ghost var seen, rest: seq<CFrame> := [], all;
    TracksNothing();
    hide Tracks;
    var frame, more := NextSlot(r, buf, fullScan, rest);
    while more
      invariant more ==> rest != [] && frame == rest[0] && Before(r, fullScan, rest[1..])
      invariant all == seen + rest && (!more ==> rest == [])
      invariant Tracks(index, tx, waiting, seen)
      decreases |rest|
    {
      TracksAll(index, tx, waiting, seen);
      index, tx, waiting := Remember(index, tx, frame, seen);
      seen, rest := seen + [frame], rest[1..];
      frame, more := NextSlot(r, buf, fullScan, rest);
    }
    assert seen == all;
    TracksAll(index, tx, waiting, all);
  }

  lemma AcceptedSorted(f: seq<byte>, h: Header, fullScan: bool)
    requires fullScan ==> h.PageSize() % 8 == 0
    ensures Sorted(Accepted(f, h, fullScan))
  {
    if fullScan { FullShape(f, h, HEADER_SIZE, h.Start()); } else { FastShape(f, h, HEADER_SIZE); }
  }

  method SortIndex(index: map<u32, CFrame>, ghost all: seq<CFrame>) returns (frames: seq<CFrame>)
    requires Sorted(all) && index == LastOf(all)
    ensures frames == Latest(all, SlotPage)
  {
    hide Latest;
    LastOfIsLatest(all);
    LatestSorted(all);
    LatestMembers(all, SlotPage);
    LastOfPages(all);
    frames := Collect(index);
    forall i, j | 0 <= i < j < |frames| ensures frames[i].offset != frames[j].offset {
      assert frames[i] in Latest(all, SlotPage) && frames[j] in Latest(all, SlotPage);
    }
    frames := SortByOffset(frames);
    SortedUnique(frames, Latest(all, SlotPage));
  }

  lemma {:induction false} LastOfPages(cs: seq<CFrame>)
    ensures forall p :: p in LastOf(cs) ==> LastOf(cs)[p].pgno == p
    decreases |cs|
  {
    if cs != [] { LastOfPages(cs[1..]); }
  }

  // ------------------------------------------------- handing out frames

  /** What an iterator still yields, and whether it then ends with EOF or with another error. */
  datatype Stream = Stream(frames: seq<Frame>, ok: bool)

  /** A page that is cut short is an error, except that a file ending right
      after the frame header looks like the end of the WAL. */
  function StreamOf(f: seq<byte>, h: Header, cs: seq<CFrame>): (s: Stream)
    ensures h.PageSize() % 8 == 0 ==> PageSized(h, s.frames)
    decreases |cs|
  {
    if cs == [] then Stream([], true)
    else if !Loadable(f, h, cs[0]) then Stream([], cs[0].offset + FRAME_HEADER_SIZE >= |f|)
    else
      var rest := StreamOf(f, h, cs[1..]);
      Stream([Load(f, h, cs[0])] + rest.frames, rest.ok)
  }

  predicate AllLoadable(f: seq<byte>, h: Header, cs: seq<CFrame>) {
    forall i :: 0 <= i < |cs| ==> Loadable(f, h, cs[i])
  }

  /** Every indexed frame is handed out exactly when no page is cut short. */
  lemma {:induction false} StreamComplete(f: seq<byte>, h: Header, cs: seq<CFrame>)
    ensures |StreamOf(f, h, cs).frames| == |cs| <==> AllLoadable(f, h, cs)
    ensures |StreamOf(f, h, cs).frames| <= |cs|
    ensures AllLoadable(f, h, cs) ==> StreamOf(f, h, cs) == Stream(LoadAll(f, h, cs), true)
    decreases |cs|
  {
    if cs != [] && Loadable(f, h, cs[0]) {
      StreamComplete(f, h, cs[1..]);
      assert cs == [cs[0]] + cs[1..];
      if AllLoadable(f, h, cs[1..]) { LoadAllCons(f, h, cs[0], cs[1..]); }
    }
  }

  class CompactingScanner {
    const file: seq<byte>
    const header: Header
    const frames: seq<CFrame>
    var cIdx: nat

    constructor (f: seq<byte>, h: Header, cs: seq<CFrame>)
      ensures file == f && header == h && frames == cs && cIdx == 0
    {
      file, header, frames, cIdx := f, h, cs, 0;
    }

    ghost predicate Valid()
      reads this
    {
      cIdx <= |frames|
    }

    ghost function Left(): Stream
      requires Valid()
      reads this
    {
      StreamOf(file, header, frames[cIdx..])
    }

    method Next() returns (r: Item)
      requires Valid()
      modifies this
      ensures old(Left()).frames == [] ==> r == if old(Left()).ok then End else Failed
      ensures old(Left()).frames != [] ==>
                Valid() && r == Got(old(Left()).frames[0]) &&
                Left() == Stream(old(Left()).frames[1..], old(Left()).ok)
    {
      if cIdx >= |frames| { return End; }
      var c := frames[cIdx];
      var at := c.offset + FRAME_HEADER_SIZE;
      if at + header.pageSize > |file| {
        return if at >= |file| then End else Failed;
      }
      assert frames[cIdx..][1..] == frames[cIdx + 1..];
      cIdx := cIdx + 1;
      return Got(Frame(c.pgno, c.commit, file[at..at + header.pageSize]));
    }

    /** The compacted WAL, built in place in one buffer. */
    method Bytes() returns (buf: array?<byte>, err: Err)
      requires header.PageSize() % 8 == 0
      ensures err == (if !header.KnownMagic() then InvalidMagic
                      else if AllLoadable(file, header, frames) then Ok else ShortRead)
      ensures err == Ok ==> buf != null && fresh(buf) &&
                            buf[..] == EncodeWal(header, LoadAll(file, header, frames))
    {
      hide EncodeWal, Emitted, SlotSize, FrameSum, EncodeFrame, Header.Encode;
      if !header.KnownMagic() { return null, InvalidMagic; }
      var pageSz, n := header.pageSize, |frames|;
      SlotSizes(header, 0, n);
      buf := new byte[HEADER_SIZE + SlotSize(header, n)];
      Put(buf, 0, header.Encode());
      var at, sum, k := HEADER_SIZE, header.Start(), 0;
      ghost var out: seq<Frame> := [];
      EmittedNothing(header, []);
      assert [] + header.Encode() == buf[..at];
      while k < n
        invariant 0 <= k <= n && at == HEADER_SIZE + SlotSize(header, k) <= buf.Length
        invariant fresh(buf) && buf.Length == HEADER_SIZE + SlotSize(header, n)
        invariant AllLoadable(file, header, frames[..k]) && out == LoadAll(file, header, frames[..k])
        invariant Emitted(header, [], out, buf[..at], at, sum)
      {
        SlotSizes(header, k, n);
        var c := frames[k];
        if c.offset + FRAME_HEADER_SIZE + pageSz > |file| {
          return null, ShortRead;
        }
        ghost var fr, was := Load(file, header, c), buf[..at];
        LoadAllSnoc(file, header, frames[..k], c);
        assert frames[..k + 1] == frames[..k] + [c];
        EmittedOne(header, [], out, was, at, sum, fr);
        sum := PutFrame(buf, at, c, sum);
        SliceCat(buf[..], 0, at, at + header.FrameSize());
        out := out + [fr];
        at, k := at + FRAME_HEADER_SIZE + pageSz, k + 1;
      }
      assert frames[..n] == frames && buf[..at] == buf[..];
      EmittedAll(header, [], out, buf[..], at, sum);
      return buf, Ok;
    }

    /** Fills in one frame at `at`, continuing the checksum chain from `sum`. */
    method PutFrame(buf: array<byte>, at: nat, c: CFrame, sum: Sum) returns (sum': Sum)
      requires header.PageSize() % 8 == 0 && Loadable(file, header, c) && at + header.FrameSize() <= buf.Length
      modifies buf
      ensures sum' == FrameSum(header, sum, Load(file, header, c))
      ensures buf[..at] == old(buf[..at])
      ensures buf[at..at + header.FrameSize()] == EncodeFrame(header, sum, Load(file, header, c))
    {
      hide Checksum, PutBE;
      var data := at + FRAME_HEADER_SIZE;
      Put(buf, at, PutBE(c.pgno) + PutBE(c.commit));
      Put(buf, at + 8, PutBE(header.salt1) + PutBE(header.salt2));
      assert buf[at..at + 8] == PutBE(c.pgno) + PutBE(c.commit);
      sum' := WALChecksum(header.Order(), sum, buf[at..at + 8]);
      Put(buf, data, file[c.offset + FRAME_HEADER_SIZE..c.offset + header.FrameSize()]);
      assert buf[at..at + 8] == PutBE(c.pgno) + PutBE(c.commit);
      assert buf[at + 8..at + 16] == PutBE(header.salt1) + PutBE(header.salt2);
      sum' := WALChecksum(header.Order(), sum', buf[data..data + header.pageSize]);
      ghost var was := buf[..];
      Put(buf, at + 16, PutBE(sum'.s0) + PutBE(sum'.s1));
      assert buf[at..at + 8] == was[at..at + 8] && buf[at + 8..at + 16] == was[at + 8..at + 16];
      assert buf[data..data + header.PageSize()] == was[data..data + header.PageSize()];
      Assembled(buf[..], at, header.PageSize());
    }
  }

  lemma Assembled(b: seq<byte>, at: nat, page: nat)
    requires at + FRAME_HEADER_SIZE + page <= |b|
    ensures b[at..at + FRAME_HEADER_SIZE + page] ==
            b[at..at + 8] + b[at + 8..at + 16] + b[at + 16..at + 24] + b[at + 24..at + 24 + page]
  {
  }

  /** Room taken by `n` frames. */
  function SlotSize(h: Header, n: nat): nat {
    if n == 0 then 0 else SlotSize(h, n - 1) + h.FrameSize()
  }

  lemma {:induction false} SlotSizes(h: Header, k: nat, n: nat)
    requires k <= n
    ensures SlotSize(h, 0) == 0 && SlotSize(h, k) <= SlotSize(h, n)
    ensures SlotSize(h, k + 1) == SlotSize(h, k) + h.FrameSize()
    ensures k < n ==> SlotSize(h, k + 1) <= SlotSize(h, n)
    decreases n
  {
    if k < n { SlotSizes(h, k, n - 1); }
  }

  lemma LoadAllSnoc(f: seq<byte>, h: Header, cs: seq<CFrame>, c: CFrame)
    requires AllLoadable(f, h, cs) && Loadable(f, h, c)
    ensures AllLoadable(f, h, cs + [c])
    ensures LoadAll(f, h, cs + [c]) == LoadAll(f, h, cs) + [Load(f, h, c)]
  {
  }

  /** Overwrites part of a buffer. */
  method Put(buf: array<byte>, at: nat, b: seq<byte>)
    requires at + |b| <= buf.Length
    modifies buf
    ensures buf[at..at + |b|] == b
    ensures forall i :: 0 <= i < at || at + |b| <= i < buf.Length ==> buf[i] == old(buf[i])
  {
    forall i | 0 <= i < |b| { buf[at + i] := b[i]; }
  }

  /** Opens `file` for compaction: the header must be accepted and the last
      accepted frame must commit. */
  method NewCompactingScanner(file: seq<byte>, fullScan: bool) returns (s: CompactingScanner?, err: Err)
    requires fullScan && HeaderErr(file) == Ok ==> HeaderAt(file).PageSize() % 8 == 0
    ensures HeaderErr(file) != Ok ==> err == HeaderErr(file)
    ensures HeaderErr(file) == Ok ==>
              err == if EndsOpen(Accepted(file, HeaderAt(file), fullScan)) then OpenTransaction else Ok
    ensures err == Ok ==>
              s != null && fresh(s) && s.Valid() && s.cIdx == 0 && s.file == file && s.header == HeaderAt(file) &&
              s.frames == Latest(Accepted(file, s.header, fullScan), SlotPage)
  {
    hide Checksum, BE, RestOf, Latest;
    var r := new Reader(file);
    err := r.ReadHeader();
    if err != Ok { return null, err; }
    var header := Header(r.magic, SUPPORTED_VERSION, r.pageSize, r.seqNo, r.salt1, r.salt2, r.chksum1, r.chksum2);
    var frames;
    frames, err := Scan(r, fullScan);
    if err != Ok { return null, err; }
    s := new CompactingScanner(file, header, frames);
  }
}
