/** What the WAL reader, writer and compaction guarantee together, as
    statements about the byte-level format. */
module WalTheory {
  import opened Bytes
  import opened WalFormat

  // -------------------------------------------------- writer/reader round trip

  /** A freshly encoded frame is accepted, and yields what was encoded. */
  lemma FrameReadBack(pre: seq<byte>, h: Header, s: Sum, fr: Frame, rest: seq<byte>)
    requires h.PageSize() % 8 == 0 && |fr.data| == h.PageSize()
    ensures var f, pos := pre + EncodeFrame(h, s, fr) + rest, |pre|;
            SlotHeader(f, h, pos) && SlotSound(f, h, pos, s) && FrameAt(f, h, pos) == fr
  {
    hide PutBE, BE, FrameSum;
    var e, pos := EncodeFrame(h, s, fr), |pre|;
    var f, t := pre + e + rest, FrameSum(h, s, fr);
    FrameFields(h, s, fr);
    Embedded(pre, e, rest, 0, 4); Embedded(pre, e, rest, 4, 8); Embedded(pre, e, rest, 8, 12);
    Embedded(pre, e, rest, 12, 16); Embedded(pre, e, rest, 16, 20); Embedded(pre, e, rest, 20, 24);
    Embedded(pre, e, rest, 24, |e|);
    DecodePut(fr.pgno, f, pos);
    DecodePut(fr.commit, f, pos + 4);
    DecodePut(h.salt1, f, pos + 8);
    DecodePut(h.salt2, f, pos + 12);
    DecodePut(t.s0, f, pos + 16);
    DecodePut(t.s1, f, pos + 20);
    assert PageAt(f, h, pos) == e[FRAME_HEADER_SIZE..];
  }

  lemma Embedded(pre: seq<byte>, e: seq<byte>, rest: seq<byte>, lo: nat, hi: nat)
    requires lo <= hi <= |e|
    ensures (pre + e + rest)[|pre| + lo..|pre| + hi] == e[lo..hi]
  {
  }

  lemma FrameFields(h: Header, s: Sum, fr: Frame)
    requires |fr.data| % 8 == 0
    ensures var e, t := EncodeFrame(h, s, fr), FrameSum(h, s, fr);
            e[0..4] == PutBE(fr.pgno) && e[4..8] == PutBE(fr.commit) &&
            e[8..12] == PutBE(h.salt1) && e[12..16] == PutBE(h.salt2) &&
            e[16..20] == PutBE(t.s0) && e[20..24] == PutBE(t.s1) && e[24..] == fr.data
  {
    hide PutBE, FrameSum;
  }

  /** Reading the encoding of `frs` with every checksum verified yields exactly `frs`, then stops. */
  lemma {:induction false} FramesReadBack(pre: seq<byte>, h: Header, s: Sum, frs: seq<Frame>)
    requires PageSized(h, frs)
    ensures var f := pre + EncodeFrames(h, s, frs);
            var cs := FullFrom(f, h, |pre|, s);
            |cs| == |frs| &&
            forall i :: 0 <= i < |cs| ==> Loadable(f, h, cs[i]) && Load(f, h, cs[i]) == frs[i]
    decreases |frs|
  {
    hide PutBE, BE, FrameSum, EncodeFrame;
    var f := pre + EncodeFrames(h, s, frs);
    if frs == [] {
      assert f == pre;
    } else {
      var e, t, rest := EncodeFrame(h, s, frs[0]), FrameSum(h, s, frs[0]), frs[1..];
      assert f == pre + e + EncodeFrames(h, t, rest);
      FrameReadBack(pre, h, s, frs[0], EncodeFrames(h, t, rest));
      FramesReadBack(pre + e, h, t, rest);
      assert f == (pre + e) + EncodeFrames(h, t, rest);
      var c, cs := CFrameAt(f, |pre|), FullFrom(f, h, |pre| + h.FrameSize(), t);
      assert FullFrom(f, h, |pre|, s) == [c] + cs;
      forall i | 0 <= i < |[c] + cs|
        ensures Loadable(f, h, ([c] + cs)[i]) && Load(f, h, ([c] + cs)[i]) == frs[i]
      {
        if i > 0 { assert ([c] + cs)[i] == cs[i - 1] && frs[i] == rest[i - 1]; }
      }
    }
  }

  /** The reader's view of a file: its header, and the frames it accepts. */
  function Contents(f: seq<byte>): seq<Frame>
    requires |f| >= HEADER_SIZE && HeaderAt(f).PageSize() % 8 == 0
  {
    var h := HeaderAt(f);
    FullShape(f, h, HEADER_SIZE, h.Start());
    LoadAll(f, h, Full(f, h))
  }

  /** Round trip: what is written for any sound header and page-sized frames is
      accepted by the reader, which yields the same frames and then stops. */
  lemma WriteThenRead(h: Header, frs: seq<Frame>)
    requires h.Sound() && PageSized(h, frs)
    ensures var f := EncodeWal(h, frs);
            HeaderErr(f) == Ok && HeaderAt(f) == h && Contents(f) == frs
  {
    hide EncodeFrames, Checksum, PutBE, BE;
    var f := EncodeWal(h, frs);
    HeaderAtEncode(h, EncodeFrames(h, h.Start(), frs));
    HeaderAcceptedIff(f);
    assert f[..HEADER_SIZE] == h.Encode();
    FramesReadBack(h.Encode(), h, h.Start(), frs);
  }

  // -------------------------------------------------- writing frame by frame

  /** Exactly the WAL of the frames `out` has been written, starting from `start`. */
  ghost predicate Emitted(h: Header, start: seq<byte>, out: seq<Frame>, bytes: seq<byte>, n: int, sum: Sum) {
    PageSized(h, out) && bytes == start + EncodeWal(h, out) && n == |EncodeWal(h, out)| &&
    sum == SumAfter(h, h.Start(), out)
  }

  lemma SizedHeader(h: Header, all: seq<Frame>)
    requires PageSized(h, all)
    ensures h.PageSize() % 8 == 0
  {
  }

  lemma SizedAt(h: Header, all: seq<Frame>, out: seq<Frame>, fr: Frame)
    requires PageSized(h, all) && out + [fr] <= all
    ensures |fr.data| == h.PageSize()
  {
    assert all[|out|] == (out + [fr])[|out|];
  }

  lemma EmittedNothing(h: Header, start: seq<byte>)
    requires h.PageSize() % 8 == 0
    ensures Emitted(h, start, [], start + h.Encode(), HEADER_SIZE, h.Start())
  {
    assert EncodeWal(h, []) == h.Encode();
  }

  lemma EmittedOne(h: Header, start: seq<byte>, out: seq<Frame>, bytes: seq<byte>, n: int, sum: Sum, fr: Frame)
    requires Emitted(h, start, out, bytes, n, sum) && |fr.data| == h.PageSize()
    ensures h.PageSize() % 8 == 0
    ensures Emitted(h, start, out + [fr], bytes + EncodeFrame(h, sum, fr), n + h.FrameSize(), FrameSum(h, sum, fr))
  {
    hide FrameSum, EncodeFrame, Header.Encode;
    EncodeFramesSnoc(h, h.Start(), out, fr);
  }

  lemma EmittedAll(h: Header, start: seq<byte>, out: seq<Frame>, bytes: seq<byte>, n: int, sum: Sum)
    requires Emitted(h, start, out, bytes, n, sum)
    ensures PageSized(h, out) && bytes == start + EncodeWal(h, out) && n == |EncodeWal(h, out)|
  {
  }

  // -------------------------------------------------- full-scan copy

  lemma FrameCopy(f: seq<byte>, h: Header, pos: nat, s: Sum)
    requires h.PageSize() % 8 == 0 && SlotHeader(f, h, pos) && SlotSound(f, h, pos, s)
    ensures EncodeFrame(h, s, FrameAt(f, h, pos)) == f[pos..pos + h.FrameSize()]
  {
    hide PutBE, BE, FrameSum;
    PutDecode(f, pos); PutDecode(f, pos + 4); PutDecode(f, pos + 8);
    PutDecode(f, pos + 12); PutDecode(f, pos + 16); PutDecode(f, pos + 20);
    assert f[pos..pos + h.FrameSize()] ==
           f[pos..pos + 4] + f[pos + 4..pos + 8] + f[pos + 8..pos + 12] + f[pos + 12..pos + 16] +
           f[pos + 16..pos + 20] + f[pos + 20..pos + 24] + PageAt(f, h, pos);
  }

  /** Where the accepted frames end. */
  function EndFrom(f: seq<byte>, h: Header, pos: nat, s: Sum): (e: nat)
    requires h.PageSize() % 8 == 0
    ensures pos <= e && (pos <= |f| ==> e <= |f|)
    decreases |f| - pos
  {
    if SlotHeader(f, h, pos) && SlotSound(f, h, pos, s)
    then EndFrom(f, h, pos + h.FrameSize(), FrameSum(h, s, FrameAt(f, h, pos)))
    else pos
  }

  lemma {:induction false} FramesCopy(f: seq<byte>, h: Header, pos: nat, s: Sum)
    requires h.PageSize() % 8 == 0 && pos <= |f|
    ensures var cs := FullFrom(f, h, pos, s);
            (forall i :: 0 <= i < |cs| ==> Loadable(f, h, cs[i])) &&
            EncodeFrames(h, s, LoadAll(f, h, cs)) == f[pos..EndFrom(f, h, pos, s)]
    decreases |f| - pos
  {
    hide PutBE, BE, FrameSum, EncodeFrame;
    FullShape(f, h, pos, s);
    if SlotHeader(f, h, pos) && SlotSound(f, h, pos, s) {
      var next, t := pos + h.FrameSize(), FrameSum(h, s, FrameAt(f, h, pos));
      FrameCopy(f, h, pos, s);
      FramesCopy(f, h, next, t);
      var rest := FullFrom(f, h, next, t);
      var cs := FullFrom(f, h, pos, s);
      assert cs == [CFrameAt(f, pos)] + rest;
      LoadAllCons(f, h, CFrameAt(f, pos), rest);
      SliceCat(f, pos, next, EndFrom(f, h, next, t));
    }
  }

  lemma LoadAllCons(f: seq<byte>, h: Header, c: CFrame, cs: seq<CFrame>)
    requires Loadable(f, h, c) && forall i :: 0 <= i < |cs| ==> Loadable(f, h, cs[i])
    ensures forall i :: 0 <= i < |[c] + cs| ==> Loadable(f, h, ([c] + cs)[i])
    ensures LoadAll(f, h, [c] + cs) == [Load(f, h, c)] + LoadAll(f, h, cs)
  {
  }

  lemma SliceCat(f: seq<byte>, a: nat, b: nat, c: nat)
    requires a <= b <= c <= |f|
    ensures f[a..c] == f[a..b] + f[b..c]
  {
  }

  /** The header and the whole, checksum-valid frames that follow it. */
  function ValidLength(f: seq<byte>): (n: nat)
    requires |f| >= HEADER_SIZE && HeaderAt(f).PageSize() % 8 == 0
    ensures HEADER_SIZE <= n <= |f|
  {
    EndFrom(f, HeaderAt(f), HEADER_SIZE, HeaderAt(f).Start())
  }

  /** Writing back everything a full scan reads reproduces the longest valid prefix, byte for byte. */
  lemma ReadThenWrite(f: seq<byte>)
    requires HeaderErr(f) == Ok && HeaderAt(f).PageSize() % 8 == 0
    ensures EncodeWal(HeaderAt(f), Contents(f)) == f[..ValidLength(f)]
  {
    hide EncodeFrames, Checksum, PutBE, BE, FullFrom, EndFrom;
    var h := HeaderAt(f);
    HeaderAcceptedIff(f);
    FramesCopy(f, h, HEADER_SIZE, h.Start());
    assert f[..ValidLength(f)] == f[..HEADER_SIZE] + f[HEADER_SIZE..ValidLength(f)];
  }

  // -------------------------------------------------- the last frame of each page

  /** The elements with no later element of the same key, in order. */
  function Latest<T>(xs: seq<T>, key: T -> u32): (r: seq<T>) {
    if xs == [] then []
    else if Repeats(xs, key) then Latest(xs[1..], key)
    else [xs[0]] + Latest(xs[1..], key)
  }

  /** Selecting by key commutes with any change of representation that keeps the key. */
  lemma {:induction false} LatestMaps<T, U>(xs: seq<T>, k: T -> u32, ys: seq<U>, l: U -> u32, m: T -> U)
    requires |xs| == |ys| && forall i :: 0 <= i < |xs| ==> ys[i] == m(xs[i]) && l(ys[i]) == k(xs[i])
    ensures |Latest(xs, k)| == |Latest(ys, l)|
    ensures forall i :: 0 <= i < |Latest(xs, k)| ==> Latest(ys, l)[i] == m(Latest(xs, k)[i])
    decreases |xs|
  {
    if xs != [] {
      LatestMaps(xs[1..], k, ys[1..], l, m);
      assert Repeats(xs, k) <==> Repeats(ys, l);
    }
  }

  predicate Repeats<T>(xs: seq<T>, key: T -> u32)
    requires xs != []
  {
    exists i :: 1 <= i < |xs| && key(xs[i]) == key(xs[0])
  }

  /** The selection is a subsequence ending where the original ends. */
  lemma {:induction false} LatestMembers<T>(xs: seq<T>, key: T -> u32)
    ensures forall x :: x in Latest(xs, key) ==> x in xs
    ensures Latest(xs, key) == [] <==> xs == []
    ensures xs != [] ==> Latest(xs, key)[|Latest(xs, key)| - 1] == xs[|xs| - 1]
    decreases |xs|
  {
    if xs != [] {
      LatestMembers(xs[1..], key);
      if |xs| > 1 { assert xs[1..][|xs| - 2] == xs[|xs| - 1]; }
    }
  }

  /** No key occurs twice in the selection. */
  lemma {:induction false} LatestDistinct<T>(xs: seq<T>, key: T -> u32)
    ensures forall i, j :: 0 <= i < j < |Latest(xs, key)| ==> key(Latest(xs, key)[i]) != key(Latest(xs, key)[j])
    decreases |xs|
  {
    if xs != [] {
      var r := Latest(xs[1..], key);
      LatestDistinct(xs[1..], key);
      LatestMembers(xs[1..], key);
      if !Repeats(xs, key) {
        forall j | 0 <= j < |r| ensures key(r[j]) != key(xs[0]) {
          assert r[j] in xs[1..];
        }
        assert Latest(xs, key) == [xs[0]] + r;
      }
    }
  }

  /** Nothing is dropped when no key repeats. */
  lemma {:induction false} LatestOfDistinct<T>(xs: seq<T>, key: T -> u32)
    requires forall i, j :: 0 <= i < j < |xs| ==> key(xs[i]) != key(xs[j])
    ensures Latest(xs, key) == xs
    decreases |xs|
  {
    if xs != [] { LatestOfDistinct(xs[1..], key); }
  }

  const FramePage: Frame -> u32 := (fr: Frame) => fr.pgno
  const SlotPage: CFrame -> u32 := (c: CFrame) => c.pgno

  // -------------------------------------------------- checkpointing

  type Page = seq<byte>

  /** A database file: its pages, none numbered beyond `size`. */
  datatype Db = Db(pages: map<u32, Page>, size: u32)

  /** Frames become visible transaction by transaction: `pending` holds the
      pages of the transaction being read, `done` those already committed. */
  datatype Replay = Replay(done: map<u32, Page>, pending: map<u32, Page>, size: u32)

  function ReplayFrame(r: Replay, fr: Frame): Replay {
    var p := r.pending[fr.pgno := fr.data];
    if fr.commit == 0 then r.(pending := p) else Replay(r.done + p, map[], fr.commit)
  }

  function ReplayFrames(r: Replay, frs: seq<Frame>): Replay
    decreases |frs|
  {
    if frs == [] then r else ReplayFrames(ReplayFrame(r, frs[0]), frs[1..])
  }

  function Truncate(pages: map<u32, Page>, size: u32): map<u32, Page> {
    map p | p in pages && p <= size :: pages[p]
  }

  /** Section 4.3: committed pages overwrite the database file, which is then
      cut to the size recorded by the last commit. */
  function Checkpoint(db: Db, frs: seq<Frame>): Db {
    var r := ReplayFrames(Replay(map[], map[], db.size), frs);
    Db(Truncate(db.pages + r.done, r.size), r.size)
  }

  predicate EndsInCommit(frs: seq<Frame>) {
    frs != [] ==> frs[|frs| - 1].commit != 0
  }

  function PageSet(frs: seq<Frame>): set<u32> {
    set i | 0 <= i < |frs| :: frs[i].pgno
  }

  /** All pages of a run of frames, later frames winning. */
  function Overlay(frs: seq<Frame>): (m: map<u32, Page>)
    ensures m.Keys == PageSet(frs)
  {
    if frs == [] then map[]
    else
      assert PageSet(frs) == {frs[0].pgno} + PageSet(frs[1..]) by { PageSetCons(frs); }
      map[frs[0].pgno := frs[0].data] + Overlay(frs[1..])
  }

  lemma PageSetCons(frs: seq<Frame>)
    requires frs != []
    ensures PageSet(frs) == {frs[0].pgno} + PageSet(frs[1..])
  {
    forall p | p in PageSet(frs) ensures p in {frs[0].pgno} + PageSet(frs[1..]) {
      var i :| 0 <= i < |frs| && frs[i].pgno == p;
      if i > 0 { assert frs[1..][i - 1].pgno == p; }
    }
    forall p | p in PageSet(frs[1..]) ensures p in PageSet(frs) {
      var i :| 0 <= i < |frs[1..]| && frs[1..][i].pgno == p;
      assert frs[i + 1].pgno == p;
    }
  }

  lemma MapAssoc<K, V>(a: map<K, V>, b: map<K, V>, c: map<K, V>)
    ensures a + b + c == a + (b + c)
  {
  }

  lemma ReplayStep(r: Replay, fr: Frame)
    ensures var r' := ReplayFrame(r, fr);
            r'.done + r'.pending == r.done + r.pending + map[fr.pgno := fr.data] &&
            (fr.commit != 0 ==> r'.pending == map[] && r'.size == fr.commit)
  {
    assert r.pending[fr.pgno := fr.data] == r.pending + map[fr.pgno := fr.data];
    MapAssoc(r.done, r.pending, map[fr.pgno := fr.data]);
  }

  lemma {:induction false} ReplayIsOverlay(r: Replay, frs: seq<Frame>)
    requires frs != [] && EndsInCommit(frs)
    ensures ReplayFrames(r, frs) == Replay(r.done + r.pending + Overlay(frs), map[], frs[|frs| - 1].commit)
    decreases |frs|
  {
    hide ReplayFrame, PageSet;
    var r', one := ReplayFrame(r, frs[0]), map[frs[0].pgno := frs[0].data];
    ReplayStep(r, frs[0]);
    if |frs| == 1 {
      assert frs[1..] == [];
      assert r'.done == r'.done + r'.pending;
      assert Overlay(frs) == one;
    } else {
      ReplayIsOverlay(r', frs[1..]);
      MapAssoc(r.done + r.pending, one, Overlay(frs[1..]));
    }
  }

  lemma OverlayHas(frs: seq<Frame>, i: nat)
    requires i < |frs|
    ensures frs[i].pgno in Overlay(frs)
  {
    assert frs[i].pgno in PageSet(frs);
  }

  lemma OverlayCons(fr: Frame, frs: seq<Frame>)
    ensures Overlay([fr] + frs) == map[fr.pgno := fr.data] + Overlay(frs)
  {
    assert ([fr] + frs)[1..] == frs;
  }

  lemma OneCovered(p: u32, data: Page, m: map<u32, Page>)
    requires p in m
    ensures map[p := data] + m == m
  {
  }

  lemma {:induction false} OverlayOfLatest(frs: seq<Frame>)
    ensures Overlay(Latest(frs, FramePage)) == Overlay(frs)
    decreases |frs|
  {
    hide PageSet;
    if frs != [] {
      OverlayOfLatest(frs[1..]);
      if Repeats(frs, FramePage) {
        var i :| 1 <= i < |frs| && FramePage(frs[i]) == FramePage(frs[0]);
        OverlayHas(frs[1..], i - 1);
        OneCovered(frs[0].pgno, frs[0].data, Overlay(frs[1..]));
      } else {
        OverlayCons(frs[0], Latest(frs[1..], FramePage));
      }
    }
  }

  /** Compaction preserves meaning: keeping only the last frame of each page
      checkpoints to the same pages and the same size, over every database. */
  lemma CompactionPreservesMeaning(db: Db, frs: seq<Frame>)
    requires EndsInCommit(frs)
    ensures EndsInCommit(Latest(frs, FramePage))
    ensures Checkpoint(db, Latest(frs, FramePage)) == Checkpoint(db, frs)
  {
    var small, r0 := Latest(frs, FramePage), Replay(map[], map[], db.size);
    LatestMembers(frs, FramePage);
    if frs != [] {
      ReplayIsOverlay(r0, frs);
      ReplayIsOverlay(r0, small);
      OverlayOfLatest(frs);
    }
  }

  // -------------------------------------------------- compacting a file

  /** Indexing by page and then loading, or loading and then indexing: the same frames. */
  lemma LatestThenLoad(f: seq<byte>, h: Header, cs: seq<CFrame>)
    requires forall i :: 0 <= i < |cs| ==> Loadable(f, h, cs[i])
    ensures forall i :: 0 <= i < |Latest(cs, SlotPage)| ==> Loadable(f, h, Latest(cs, SlotPage)[i])
    ensures LoadAll(f, h, Latest(cs, SlotPage)) == Latest(LoadAll(f, h, cs), FramePage)
  {
    LatestMembers(cs, SlotPage);
    forall i | 0 <= i < |Latest(cs, SlotPage)| ensures Loadable(f, h, Latest(cs, SlotPage)[i]) {
      assert Latest(cs, SlotPage)[i] in cs;
    }
    var m := (c: CFrame) => if Loadable(f, h, c) then Load(f, h, c) else Frame(c.pgno, c.commit, []);
    LatestMaps(cs, SlotPage, LoadAll(f, h, cs), FramePage, m);
  }

  /** The file holding only the last frame of each page of `f`. */
  function Compacted(f: seq<byte>): seq<byte>
    requires |f| >= HEADER_SIZE && HeaderAt(f).PageSize() % 8 == 0
  {
    var frs := Contents(f);
    LatestMembers(frs, FramePage);
    assert forall i :: 0 <= i < |Latest(frs, FramePage)| ==> Latest(frs, FramePage)[i] in frs;
    EncodeWal(HeaderAt(f), Latest(frs, FramePage))
  }

  /** A compacted WAL is a valid WAL with the same header; checkpointing it
      leaves any database as the original would; compacting again changes no byte. */
  lemma CompactedFile(f: seq<byte>, db: Db)
    requires HeaderErr(f) == Ok && HeaderAt(f).PageSize() % 8 == 0 && EndsInCommit(Contents(f))
    ensures var g := Compacted(f);
            HeaderErr(g) == Ok && HeaderAt(g) == HeaderAt(f) &&
            Contents(g) == Latest(Contents(f), FramePage) && EndsInCommit(Contents(g)) &&
            Checkpoint(db, Contents(g)) == Checkpoint(db, Contents(f)) &&
            Compacted(g) == g
  {
    hide EncodeWal, Checkpoint, HeaderErr, HeaderAt;
    HeaderAcceptedIff(f);
    var frs := Contents(f);
    var small := Latest(frs, FramePage);
    LatestMembers(frs, FramePage);
    assert forall i :: 0 <= i < |small| ==> small[i] in frs;
    WriteThenRead(HeaderAt(f), small);
    CompactionPreservesMeaning(db, frs);
    LatestDistinct(frs, FramePage);
    LatestOfDistinct(small, FramePage);
  }
}
