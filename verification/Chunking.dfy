/** Cutting a database into numbered chunks and putting it together again, with any
    number of streams interleaved. Compression is a wrapper whose content is known. */
module Chunking {
  import opened Bytes
  import opened Options

  /** The data of a chunk: none, a gzip stream of some bytes, or something that stops
      being a gzip stream once `bytes` have been decoded. */
  datatype Packed = Absent | Gzip(bytes: seq<byte>) | Junk(bytes: seq<byte>)

  datatype Chunk =
    | Chunk(stream: string, seqNum: int, last: bool, data: Packed)
    | Abort(stream: string)

  const INTERNAL_CHUNK_SIZE := 1024 * 1024

  function Payload(c: Chunk): seq<byte> {
    if c.Chunk? && c.data.Gzip? then c.data.bytes else []
  }

  function Joined(cs: seq<Chunk>): seq<byte>
    decreases |cs|
  {
    if cs == [] then [] else Joined(cs[..|cs| - 1]) + Payload(cs[|cs| - 1])
  }

  /** Chunk `i` of a stream: numbered from one, and full unless it is the last. */
  predicate Numbered(id: string, size: nat, c: Chunk, i: nat, last: bool) {
    c.Chunk? && c.stream == id && c.seqNum == i + 1 && c.last == last && !c.data.Junk? &&
    (if last then |Payload(c)| < size else |Payload(c)| >= size)
  }

  /** The chunks that make up `input`. */
  predicate Streamed(id: string, size: nat, input: seq<byte>, cs: seq<Chunk>) {
    (forall i :: 0 <= i < |cs| ==> Numbered(id, size, cs[i], i, i == |cs| - 1)) && Joined(cs) == input &&
    (cs == [] <==> input == [])
  }

  // ------------------------------------------------- cutting

  datatype Status = Fine | Eof | Broken

  /** A reader that may return less than asked for, may announce the end early or late,
      and, unless it is reliable, may fail at any time. */
  class Source {
    const data: seq<byte>
    const reliable: bool
    var pos: nat

    constructor (d: seq<byte>, safe: bool)
      ensures data == d && reliable == safe && pos == 0
    {
      data, reliable, pos := d, safe, 0;
    }

    method Read(max: nat) returns (n: nat, st: Status)
      requires max >= 1 && pos <= |data|
      modifies this
      ensures pos == old(pos) + n <= |data| && n <= max
      ensures n == 0 ==> !st.Fine?
      ensures st.Eof? ==> pos == |data|
      ensures reliable ==> !st.Broken?
    {
      var fails: bool := *;
      if fails && !reliable {
        n :| 0 <= n <= max && n <= |data| - pos;
        pos, st := pos + n, Broken;
      } else if pos == |data| {
        n, st := 0, Eof;
      } else {
        n :| 1 <= n <= max && n <= |data| - pos;
        pos := pos + n;
        var early: bool := *;
        st := if early && pos == |data| then Eof else Fine;
      }
    }
  }

  /** What a call of Next yields. */
  datatype Item = Cut(chunk: Chunk) | End | Failed

  class Chunker {
    const source: Source
    const chunkSize: nat
    const stream: string
    var seqNum: nat
    var finished: bool

    constructor (r: Source, size: nat, id: string)
      ensures source == r && chunkSize == size && stream == id && seqNum == 0 && !finished
    {
      source, chunkSize, stream, seqNum, finished := r, size, id, 0, false;
    }

    predicate Valid()
      reads this, source
    {
      chunkSize >= 1 && source.pos <= |source.data| && (finished ==> source.pos == |source.data|)
    }

    /** The next chunk carries the bytes read for it, and is the last exactly when the source
        is used up short of a full chunk. A failing reader makes the call fail; what it had
        read for the chunk is gone. */
    method Next() returns (r: Item)
      requires Valid()
      modifies this, source
      ensures Valid() && source.pos >= old(source.pos)
      ensures old(finished) ==> r.End?
      ensures r.End? ==> finished && seqNum == old(seqNum) && source.pos == old(source.pos) == |source.data| &&
                         (old(finished) || old(seqNum) == 0)
      ensures r.Cut? ==> Numbered(stream, chunkSize, r.chunk, old(seqNum), finished) &&
                         Payload(r.chunk) == source.data[old(source.pos)..source.pos]
      ensures r.Cut? && !finished ==> seqNum == old(seqNum) + 1
      ensures r.Cut? && old(seqNum) == 0 ==> Payload(r.chunk) != []
      ensures r.Failed? ==> !finished && seqNum == old(seqNum)
      ensures source.reliable ==> !r.Failed?
    {
      if finished { return End; }
      var want := if INTERNAL_CHUNK_SIZE < chunkSize then INTERNAL_CHUNK_SIZE else chunkSize;
      var total, buf := 0, [];
      while total < chunkSize && !finished
        invariant old(source.pos) <= source.pos <= |source.data|
        invariant buf == source.data[old(source.pos)..source.pos] && total == |buf|
        invariant finished ==> source.pos == |source.data| && total < chunkSize
        invariant seqNum == old(seqNum)
        decreases !finished, |source.data| - source.pos
      {
        var from := source.pos;
        var n, st := source.Read(want);
        total := total + n;
        if n > 0 {
          // Writing what was read replaces whatever the reader reported along with it.
          buf := buf + source.data[from..source.pos];
        } else if st.Eof? {
          finished := true;
        } else {
          return Failed;
        }
      }
      if total == 0 {
        if seqNum == 0 { return End; }
        return Cut(Chunk(stream, seqNum + 1, true, Absent));
      }
      seqNum := seqNum + 1;
      return Cut(Chunk(stream, seqNum, total < chunkSize, Gzip(buf)));
    }
  }

  /** The first chunks of a stream, none of them the last. */
  predicate Begun(id: string, size: nat, input: seq<byte>, cs: seq<Chunk>) {
    (forall i :: 0 <= i < |cs| ==> Numbered(id, size, cs[i], i, false)) && Joined(cs) <= input
  }

  /** The chunks `cs` were cut from the first `pos` bytes of the input, and are all if `done`. */
  ghost predicate Cutting(id: string, size: nat, input: seq<byte>, cs: seq<Chunk>, pos: nat, done: bool) {
    pos <= |input| && Joined(cs) == input[..pos] && (cs == [] ==> pos == 0) && (cs != [] ==> pos > 0) &&
    (forall i :: 0 <= i < |cs| ==> Numbered(id, size, cs[i], i, i == |cs| - 1 && done)) &&
    (done ==> pos == |input|)
  }

  lemma CutOne(id: string, size: nat, input: seq<byte>, cs: seq<Chunk>, pos: nat, c: Chunk, next: nat, done: bool)
    requires Cutting(id, size, input, cs, pos, false) && Numbered(id, size, c, |cs|, done)
    requires pos <= next <= |input| && Payload(c) == input[pos..next] && (cs == [] ==> Payload(c) != [])
    requires done ==> next == |input|
    ensures Cutting(id, size, input, cs + [c], next, done)
  {
    hide Numbered;
    Snoc(cs, c);
  }

  lemma CutAll(id: string, size: nat, input: seq<byte>, cs: seq<Chunk>, pos: nat, done: bool)
    requires Cutting(id, size, input, cs, pos, done)
    ensures done ==> Streamed(id, size, input, cs)
    ensures !done ==> Begun(id, size, input, cs)
  {
    hide Numbered;
  }

  /** Every input is cut into a well-numbered stream, whatever the reader returns at a time,
      unless the reader fails: then what was cut before is the beginning of one. */
  method ChunkAll(input: seq<byte>, reliable: bool, size: nat, id: string) returns (cs: seq<Chunk>, ok: bool)
    requires size >= 1
    ensures reliable ==> ok
    ensures ok ==> Streamed(id, size, input, cs)
    ensures !ok ==> Begun(id, size, input, cs)
  {
    var source := new Source(input, reliable);
    var chunker := new Chunker(source, size, id);
    cs := [];
    assert Cutting(id, size, input, cs, 0, false);
    hide Cutting, Numbered, Payload, Streamed, Begun;
    while true
      invariant chunker.Valid() && chunker.source == source && source.data == input && source.reliable == reliable
      invariant chunker.stream == id && chunker.chunkSize == size && fresh(chunker) && fresh(source)
      invariant Cutting(id, size, input, cs, source.pos, chunker.finished)
      invariant !chunker.finished ==> chunker.seqNum == |cs|
      decreases !chunker.finished, |input| - source.pos
    {
      CutAll(id, size, input, cs, source.pos, chunker.finished);
      ghost var pos := source.pos;
      if chunker.finished { return cs, true; }
      var r := chunker.Next();
      if r.End? {
        NothingCut(id, size, input, cs, pos);
        return cs, true;
      }
      if r.Failed? { return cs, false; }
      CutOne(id, size, input, cs, pos, r.chunk, source.pos, chunker.finished);
      cs := cs + [r.chunk];
    }
  }

  lemma NothingCut(id: string, size: nat, input: seq<byte>, cs: seq<Chunk>, pos: nat)
    requires Cutting(id, size, input, cs, pos, false) && cs == [] && pos == |input|
    ensures Streamed(id, size, input, cs)
  {
  }

  lemma Snoc(cs: seq<Chunk>, c: Chunk)
    ensures Joined(cs + [c]) == Joined(cs) + Payload(c)
  {
    assert (cs + [c])[..|cs|] == cs;
  }

  // ------------------------------------------------- putting together

  datatype Outcome = Refused | More | Done

  /** A file under reassembly. */
  datatype Partial = Partial(stream: string, seqNum: int, file: seq<byte>)

  const FRESH := Partial("", 0, [])

  /** The stream and the number are taken note of before the data is looked at, and what
      could be decoded of broken data stays in the file. */
  function Write(d: Partial, c: Chunk): (Partial, Outcome)
    requires c.Chunk?
  {
    if d.stream != "" && d.stream != c.stream then (d, Refused)
    else
      var d := d.(stream := c.stream);
      if c.seqNum != d.seqNum + 1 then (d, Refused)
      else
        var d := d.(seqNum := c.seqNum);
        if c.data.Junk? then (d.(file := d.file + c.data.bytes), Refused)
        else (d.(file := d.file + Payload(c)), if c.last then Done else More)
  }

  class Dechunker {
    var streamID: string
    var seqNum: int
    var file: seq<byte>

    constructor ()
      ensures State() == FRESH
    {
      streamID, seqNum, file := "", 0, [];
    }

    function State(): Partial
      reads this
    {
      Partial(streamID, seqNum, file)
    }

    method WriteChunk(c: Chunk) returns (o: Outcome)
      requires c.Chunk?
      modifies this
      ensures (State(), o) == Write(old(State()), c)
    {
      if streamID == "" {
        streamID := c.stream;
      } else if streamID != c.stream {
        return Refused;
      }
      if c.seqNum != seqNum + 1 { return Refused; }
      seqNum := c.seqNum;
      if !c.data.Absent? {
        file := file + c.data.bytes;
        if c.data.Junk? { return Refused; }
      }
      assert file == old(file) + Payload(c);
      return if c.last then Done else More;
    }
  }

  /** The reassembly of a stream, begun if need be. */
  function Under(ds: map<string, Partial>, id: string): Partial {
    if id in ds then ds[id] else FRESH
  }

  /** One chunk arriving: what is under reassembly afterwards, and the file it completed. */
  function Feed(ds: map<string, Partial>, c: Chunk): (map<string, Partial>, Option<seq<byte>>) {
    if c.Abort? then (ds - {c.stream}, None)
    else
      var (e, o) := Write(Under(ds, c.stream), c);
      if o.Done? then (ds - {c.stream}, Some(e.file)) else (ds[c.stream := e], None)
  }

  class DechunkerManager {
    var m: map<string, Dechunker>

    ghost function Repr(): set<object>
      reads this
    {
      {this} + set id | id in m :: m[id]
    }

    ghost predicate Valid()
      reads this
    {
      forall i, j :: i in m && j in m && i != j ==> m[i] != m[j]
    }

    ghost function Contents(): map<string, Partial>
      reads this, Repr()
    {
      map id | id in m :: m[id].State()
    }

    constructor ()
      ensures Valid() && Contents() == map[] && m == map[]
    {
      m := map[];
    }

    method Get(id: string) returns (d: Dechunker)
      requires Valid()
      modifies this
      ensures Valid() && fresh(Repr() - old(Repr())) && id in m && m[id] == d
      ensures Contents() == old(Contents())[id := Under(old(Contents()), id)]
    {
      if id !in m {
        d := new Dechunker();
        m := m[id := d];
      }
      d := m[id];
    }

    method Delete(id: string)
      requires Valid()
      modifies this
      ensures Valid() && Repr() <= old(Repr()) && Contents() == old(Contents()) - {id}
    {
      m := m - {id};
    }

    method WriteTo(id: string, c: Chunk) returns (o: Outcome)
      requires Valid() && id in m && c.Chunk?
      modifies m[id]
      ensures Valid() && Repr() == old(Repr()) && m == old(m)
      ensures var (e, p) := Write(old(Contents())[id], c); o == p && Contents() == old(Contents())[id := e]
    {
      hide Write;
      o := m[id].WriteChunk(c);
    }

    method FileOf(id: string) returns (f: seq<byte>)
      requires id in m
      ensures id in Contents() && f == Contents()[id].file
    {
      f := m[id].file;
    }

    /** The handling of one load-chunk command. */
    method Receive(c: Chunk) returns (r: Option<seq<byte>>)
      requires Valid()
      modifies Repr()
      ensures Valid() && fresh(Repr() - old(Repr()))
      ensures (Contents(), r) == Feed(old(Contents()), c)
    {
      hide Write, DechunkerManager.Contents;
      ghost var was := Contents();
      var d := Get(c.stream);
      if c.Abort? {
        Delete(c.stream);
        assert Contents() == was - {c.stream};
        return None;
      }
      var o := WriteTo(c.stream, c);
      assert Contents() == was[c.stream := Write(Under(was, c.stream), c).0];
      r := None;
      if o.Done? {
        var path := FileOf(c.stream);
        r := Some(path);
        Delete(c.stream);
        assert Contents() == was - {c.stream};
      }
    }
  }

  // ------------------------------------------------- streams do not disturb each other

  /** The files completed for stream `s` while the chunks arrive. */
  function Completed(ds: map<string, Partial>, cs: seq<Chunk>, s: string): seq<seq<byte>>
    decreases |cs|
  {
    if cs == [] then []
    else
      var (es, r) := Feed(ds, cs[0]);
      (if cs[0].stream == s && r.Some? then [r.value] else []) + Completed(es, cs[1..], s)
  }

  function Remaining(ds: map<string, Partial>, cs: seq<Chunk>): map<string, Partial>
    decreases |cs|
  {
    if cs == [] then ds else Remaining(Feed(ds, cs[0]).0, cs[1..])
  }

  function Only(cs: seq<Chunk>, s: string): seq<Chunk>
    decreases |cs|
  {
    if cs == [] then []
    else (if cs[0].stream == s then [cs[0]] else []) + Only(cs[1..], s)
  }

  predicate AgreeOn(s: string, ds: map<string, Partial>, es: map<string, Partial>) {
    (s in ds <==> s in es) && (s in ds ==> ds[s] == es[s])
  }

  /** What becomes of a stream depends on its own chunks only. */
  lemma {:induction false} StreamsAreIsolated(ds: map<string, Partial>, es: map<string, Partial>, cs: seq<Chunk>,
                                              s: string)
    requires AgreeOn(s, ds, es)
    ensures Completed(ds, cs, s) == Completed(es, Only(cs, s), s)
    ensures AgreeOn(s, Remaining(ds, cs), Remaining(es, Only(cs, s)))
    decreases |cs|
  {
    if cs != [] {
      var own := Only(cs, s);
      var ds' := Feed(ds, cs[0]).0;
      if cs[0].stream == s {
        assert own[0] == cs[0] && own[1..] == Only(cs[1..], s);
        StreamsAreIsolated(ds', Feed(es, cs[0]).0, cs[1..], s);
      } else {
        assert own == Only(cs[1..], s);
        StreamsAreIsolated(ds', es, cs[1..], s);
      }
    }
  }

  /** Halfway through a stream, exactly the data seen so far is in the file. */
  ghost predicate Midway(ds: map<string, Partial>, s: string, cs: seq<Chunk>) {
    var d := Under(ds, s);
    (d.stream == "" || d.stream == s) && d.seqNum == |cs| && d.file == Joined(cs)
  }

  lemma OneMore(ds: map<string, Partial>, s: string, size: nat, done: seq<Chunk>, c: Chunk, last: bool)
    requires Midway(ds, s, done) && Numbered(s, size, c, |done|, last)
    ensures var (es, r) := Feed(ds, c);
            if last then r == Some(Joined(done + [c])) && s !in es else r.None? && Midway(es, s, done + [c])
  {
    Snoc(done, c);
  }

  lemma {:induction false} StreamCompletes(ds: map<string, Partial>, s: string, size: nat, cs: seq<Chunk>, k: nat)
    requires k < |cs| && (forall i :: 0 <= i < |cs| ==> Numbered(s, size, cs[i], i, i == |cs| - 1)) &&
             Midway(ds, s, cs[..k])
    ensures Completed(ds, cs[k..], s) == [Joined(cs)] && s !in Remaining(ds, cs[k..])
    decreases |cs| - k
  {
    var rest := cs[k..];
    assert rest[0] == cs[k] && rest[1..] == cs[k + 1..] && cs[..k + 1] == cs[..k] + [cs[k]];
    assert Numbered(s, size, cs[k], k, k == |cs| - 1);
    OneMore(ds, s, size, cs[..k], cs[k], k == |cs| - 1);
    hide Feed, Joined, Midway;
    if k + 1 == |cs| {
      assert cs[..k + 1] == cs && rest[1..] == [];
    } else {
      StreamCompletes(Feed(ds, cs[k]).0, s, size, cs, k + 1);
    }
  }

  /** A stream of chunks rebuilds its input exactly once, whatever else arrives in between. */
  lemma Reassembly(ds: map<string, Partial>, arrived: seq<Chunk>, s: string, size: nat, input: seq<byte>)
    requires s !in ds && input != [] && Streamed(s, size, input, Only(arrived, s))
    ensures Completed(ds, arrived, s) == [input] && s !in Remaining(ds, arrived)
  {
    var own := Only(arrived, s);
    StreamsAreIsolated(ds, ds, arrived, s);
    assert own[..0] == [] && own[0..] == own;
    StreamCompletes(ds, s, size, own, 0);
  }

  /** An aborted stream leaves nothing behind and completes nothing. */
  lemma {:induction false} AbortedStreams(ds: map<string, Partial>, arrived: seq<Chunk>, s: string)
    requires Only(arrived, s) != [] && Only(arrived, s)[|Only(arrived, s)| - 1].Abort?
    ensures s !in Remaining(ds, arrived)
  {
    StreamsAreIsolated(ds, ds, arrived, s);
    OnlyOwn(arrived, s);
    EndsInAbort(ds, Only(arrived, s), s);
  }

  lemma {:induction false} EndsInAbort(ds: map<string, Partial>, cs: seq<Chunk>, s: string)
    requires cs != [] && cs[|cs| - 1] == Abort(s)
    ensures s !in Remaining(ds, cs)
    decreases |cs|
  {
    if |cs| > 1 { EndsInAbort(Feed(ds, cs[0]).0, cs[1..], s); }
  }

  lemma {:induction false} OnlyOwn(cs: seq<Chunk>, s: string)
    ensures forall c :: c in Only(cs, s) ==> c.stream == s
    decreases |cs|
  {
    if cs != [] { OnlyOwn(cs[1..], s); }
  }
}
