/** Recovery of a node by hand: the newest snapshot and the whole Raft log are turned
    into one new snapshot, and the log is emptied. */
module Recovery {
  import opened Bytes
  import opened Options
  import opened Chunking

  type Pages = map<nat, nat>

  datatype Command =
    | Query
    | Execute(statement: nat)
    | Load(data: seq<byte>)
    | LoadChunk(chunk: Chunk)
    | Noop

  datatype LogEntry = LogEntry(term: nat, command: Option<Command>)

  datatype Snap = Snap(index: nat, term: nat, db: Pages)

  /** What SQLite does: the pages a statement writes into the WAL, with foreign keys enforced
      or not, and the database in a file, if it holds one. */
  datatype Sqlite = Sqlite(writes: (bool, Pages, nat) -> Pages, parse: seq<byte> -> Option<Pages>)

  /** A node replaying commands: a database file, its WAL, whether the database was opened with
      foreign keys enforced, and the chunked loads in progress. */
  datatype Replica = Replica(file: Pages, wal: Pages, fk: bool, loading: map<string, Partial>)

  function Content(r: Replica): Pages { r.file + r.wal }

  /** Swapping in a new database replaces file and WAL, unless the data is no database. */
  function SwapIn(sql: Sqlite, r: Replica, data: seq<byte>): Replica {
    var db := sql.parse(data);
    if db.Some? then r.(file := db.value, wal := map[]) else r
  }

  function Process(sql: Sqlite, r: Replica, c: Command): Replica {
    match c
    case Query => r
    case Execute(s) => r.(wal := r.wal + sql.writes(r.fk, Content(r), s))
    case Load(data) => SwapIn(sql, r, data)
    case LoadChunk(ch) =>
      var (loading, done) := Feed(r.loading, ch);
      var r := r.(loading := loading);
      if done.Some? then SwapIn(sql, r, done.value) else r
    case Noop => r
  }

  function Step(sql: Sqlite, r: Replica, e: LogEntry): Replica {
    if e.command.Some? then Process(sql, r, e.command.value) else r
  }

  predicate Present(log: map<nat, LogEntry>, lo: nat, hi: nat) {
    forall i :: lo <= i < hi ==> i in log
  }

  /** Entries `lo..hi` of the log, applied in order. */
  function Replay(sql: Sqlite, r: Replica, log: map<nat, LogEntry>, lo: nat, hi: nat): (q: Replica)
    requires Present(log, lo, hi)
    ensures q.fk == r.fk
    decreases hi
  {
    if hi <= lo then r else Step(sql, Replay(sql, r, log, lo, hi - 1), log[hi - 1])
  }

  // ------------------------------------------------- what a node stands for

  function LatestSnap(snaps: seq<Snap>): Snap {
    if snaps == [] then Snap(0, 0, map[]) else snaps[0]
  }

  /** Every entry after the newest snapshot is there. */
  predicate Complete(snaps: seq<Snap>, log: map<nat, LogEntry>, last: nat) {
    forall i :: LatestSnap(snaps).index < i <= last ==> i in log
  }

  datatype Meaning = Meaning(db: Pages, index: nat, term: nat)

  /** The database, last index and last term a node with the given foreign-key setting comes to
      from its snapshots and log. */
  function Stands(sql: Sqlite, fk: bool, snaps: seq<Snap>, log: map<nat, LogEntry>, last: nat): Meaning
    requires Complete(snaps, log, last)
  {
    var s := LatestSnap(snaps);
    if last <= s.index then Meaning(s.db, s.index, s.term)
    else
      var r := Replay(sql, Replica(s.db, map[], fk, map[]), log, s.index + 1, last + 1);
      Meaning(Content(r), last, log[last].term)
  }

  // ------------------------------------------------- the recovery

  /** What is opened as the scratch database: a snapshot is copied over the file, but not
      over a WAL that lies beside it; without a database file a WAL is discarded. Whatever
      the node's setting, foreign keys are not enforced. */
  function Opened(snaps: seq<Snap>, scratch: Option<Pages>, wal: Pages): Replica {
    if snaps != [] then Replica(snaps[0].db, wal, false, map[])
    else if scratch.Some? then Replica(scratch.value, wal, false, map[])
    else Replica(map[], map[], false, map[])
  }

  /** The replay got as far as entry `n`, which is missing. */
  ghost predicate Stopped(sql: Sqlite, start: Replica, snaps: seq<Snap>, log: map<nat, LogEntry>, last: nat,
                          r: Replica, n: nat)
  {
    LatestSnap(snaps).index < n <= last && n !in log && Present(log, LatestSnap(snaps).index + 1, n) &&
    r == Replay(sql, start, log, LatestSnap(snaps).index + 1, n)
  }

  /** The snapshot a recovery writes. */
  function NewSnap(sql: Sqlite, start: Replica, snaps: seq<Snap>, log: map<nat, LogEntry>, last: nat): Snap
    requires Complete(snaps, log, last)
  {
    var s := LatestSnap(snaps);
    if last <= s.index then Snap(s.index, s.term, Content(start))
    else Snap(last, log[last].term, Content(Replay(sql, start, log, s.index + 1, last + 1)))
  }

  /** The node stands for the same as before, if it does not enforce foreign keys or nothing was executed. */
  ghost predicate SameMeaning(sql: Sqlite, snaps: seq<Snap>, log: map<nat, LogEntry>, last: nat,
                              was: seq<Snap>, wasLog: map<nat, LogEntry>, wasLast: nat)
  {
    Complete(snaps, log, last) && Complete(was, wasLog, wasLast) &&
    Stands(sql, false, snaps, log, last) == Stands(sql, false, was, wasLog, wasLast) &&
    (NoneRuns(wasLog, LatestSnap(was).index + 1, wasLast + 1) ==>
      Stands(sql, true, snaps, log, last) == Stands(sql, true, was, wasLog, wasLast))
  }

  class Node {
    var snaps: seq<Snap>
    var log: map<nat, LogEntry>
    var lastLogIndex: nat
    var scratch: Option<Pages>
    var scratchWal: Pages

    /** The replay loop. An entry that cannot be read stops it. */
    method ReplayLog(sql: Sqlite, start: Replica) returns (ok: bool, r: Replica, lastIndex: nat, lastTerm: nat)
      ensures ok <==> Complete(snaps, log, lastLogIndex)
      ensures ok ==> var s := LatestSnap(snaps);
                     if lastLogIndex <= s.index then r == start && lastIndex == s.index && lastTerm == s.term
                     else r == Replay(sql, start, log, s.index + 1, lastLogIndex + 1) &&
                          lastIndex == lastLogIndex && lastTerm == log[lastLogIndex].term
      ensures !ok ==> exists n :: Stopped(sql, start, snaps, log, lastLogIndex, r, n)
    {
      var s := LatestSnap(snaps);
      lastIndex, lastTerm := s.index, s.term;
      r := start;
      var index := s.index + 1;
      while index <= lastLogIndex
        invariant s.index < index && (index <= lastLogIndex + 1 || index == s.index + 1)
        invariant forall i :: s.index < i < index ==> i in log
        invariant r == Replay(sql, start, log, s.index + 1, index)
        invariant lastIndex == index - 1 && lastTerm == if index == s.index + 1 then s.term else log[index - 1].term
      {
        if index !in log {
          assert Stopped(sql, start, snaps, log, lastLogIndex, r, index);
          return false, r, lastIndex, lastTerm;
        }
        var entry := log[index];
        if entry.command.Some? { r := Process(sql, r, entry.command.value); }
        lastIndex, lastTerm := index, entry.term;
        index := index + 1;
      }
      ok := true;
    }

    /** `confOk` is the check of the new configuration; `saved` whether the new snapshot could be
        written, `emptied` whether the log could then be deleted. Once the snapshot is written
        the node stands for the same as before, whether or not the log is gone. */
    method RecoverNode(sql: Sqlite, confOk: bool, saved: bool, emptied: bool) returns (ok: bool)
      modifies this
      ensures ok <==> confOk && saved && emptied && Complete(old(snaps), old(log), old(lastLogIndex))
      ensures var done := confOk && saved && Complete(old(snaps), old(log), old(lastLogIndex));
              (done ==> Recovered(sql, old(Opened(snaps, scratch, scratchWal)), old(snaps), old(log),
              old(lastLogIndex)) &&
                        scratch.None? && scratchWal == map[]) &&
              (!done ==> snaps == old(snaps))
      ensures confOk && saved && Complete(old(snaps), old(log), old(lastLogIndex)) &&
              old(CleanScratch(snaps, scratch, scratchWal)) ==>
                SameMeaning(sql, snaps, log, lastLogIndex, old(snaps), old(log), old(lastLogIndex))
      ensures if ok then log == map[] && lastLogIndex == 0 else log == old(log) && lastLogIndex == old(lastLogIndex)
      ensures confOk ==> scratch.None?
      ensures confOk && !Complete(old(snaps), old(log), old(lastLogIndex)) ==>
                exists r, n :: Stopped(sql, old(Opened(snaps, scratch, scratchWal)), snaps, log, lastLogIndex, r, n) &&
                               scratchWal == r.wal
    {
      if !confOk { return false; }
      hide Stands, SameMeaning, CleanScratch, Opened, NewSnap, Stopped;
      var done, snap := Rebuild(sql);
      scratch := None;
      if !done || !saved { return false; }
      if old(CleanScratch(snaps, scratch, scratchWal)) {
        SavedMeansSame(sql, snaps, old(scratch), old(scratchWal), log, lastLogIndex);
      }
      snaps := [snap] + snaps;
      if !emptied { return false; }
      log, lastLogIndex := map[], 0;
      return true;
    }

    /** Replays the log into the scratch database and checkpoints it, for the snapshot to come. */
    method Rebuild(sql: Sqlite) returns (done: bool, snap: Snap)
      modifies this`scratch, this`scratchWal
      ensures done <==> Complete(snaps, log, lastLogIndex)
      ensures done ==> scratchWal == map[] &&
                       snap == NewSnap(sql, old(Opened(snaps, scratch, scratchWal)), snaps, log, lastLogIndex)
      ensures !done ==>
                exists r, n :: Stopped(sql, old(Opened(snaps, scratch, scratchWal)), snaps, log, lastLogIndex, r, n) &&
                               scratchWal == r.wal
    {
      hide Opened, Content;
      var start := Opened(snaps, scratch, scratchWal);
      if snaps != [] { scratch := Some(snaps[0].db); }
      var r, lastIndex, lastTerm;
      done, r, lastIndex, lastTerm := ReplayLog(sql, start);
      snap := Snap(lastIndex, lastTerm, Content(r));
      scratch, scratchWal := Some(r.file), r.wal;
      if done { scratch, scratchWal := Some(Content(r)), map[]; }
    }

    /** The newest snapshot is the one a recovery from `start` writes. */
    ghost predicate Recovered(sql: Sqlite, start: Replica, was: seq<Snap>, wasLog: map<nat, LogEntry>, wasLast: nat)
      reads this
    {
      Complete(was, wasLog, wasLast) && snaps == [NewSnap(sql, start, was, wasLog, wasLast)] + was
    }
  }

  // ------------------------------------------------- what recovery preserves

  predicate Runs(e: LogEntry) { e.command.Some? && e.command.value.Execute? }

  /** No entry of `lo..hi` executes statements. */
  predicate NoneRuns(log: map<nat, LogEntry>, lo: nat, hi: nat) {
    forall i :: lo <= i < hi && i in log ==> !Runs(log[i])
  }

  /** A reassembly that has received nothing: its first chunk, if any, was refused. */
  predicate Inert(s: string, p: Partial) {
    p.seqNum == 0 && p.file == [] && (p.stream == "" || p.stream == s)
  }

  predicate SameLoad(s: string, p: Partial, q: Partial) {
    p == q || (Inert(s, p) && Inert(s, q))
  }

  /** Every stream is equally far on both sides. */
  ghost predicate Alike(ds: map<string, Partial>, es: map<string, Partial>) {
    forall s :: SameLoad(s, Under(ds, s), Under(es, s))
  }

  /** An arriving chunk has the same effect on both sides. */
  lemma FeedAlike(ds: map<string, Partial>, es: map<string, Partial>, c: Chunk)
    requires Alike(ds, es)
    ensures Feed(ds, c).1 == Feed(es, c).1 && Alike(Feed(ds, c).0, Feed(es, c).0)
  {
    var s := c.stream;
    assert SameLoad(s, Under(ds, s), Under(es, s));
    forall t ensures SameLoad(t, Under(Feed(ds, c).0, t), Under(Feed(es, c).0, t)) {
      assert SameLoad(t, Under(ds, t), Under(es, t));
    }
  }

  ghost predicate SameNode(r: Replica, q: Replica) {
    Content(r) == Content(q) && Alike(r.loading, q.loading)
  }

  lemma WritesAgree(r: Replica, q: Replica, w: Pages)
    requires Content(r) == Content(q)
    ensures Content(r.(wal := r.wal + w)) == Content(q.(wal := q.wal + w))
  {
    LayersAssociate(r.file, r.wal, w);
    LayersAssociate(q.file, q.wal, w);
  }

  lemma LayersAssociate(a: Pages, b: Pages, c: Pages)
    ensures a + (b + c) == (a + b) + c
  {
  }

  lemma SwapsAgree(sql: Sqlite, r: Replica, q: Replica, data: seq<byte>)
    requires SameNode(r, q)
    ensures SameNode(SwapIn(sql, r, data), SwapIn(sql, q, data))
  {
    hide Alike;
  }

  lemma StepAgrees(sql: Sqlite, r: Replica, q: Replica, e: LogEntry)
    requires SameNode(r, q) && (r.fk == q.fk || !Runs(e))
    ensures SameNode(Step(sql, r, e), Step(sql, q, e))
  {
    hide Feed, Content, SwapIn, Alike;
    if e.command.Some? {
      match e.command.value
      case Execute(s) => WritesAgree(r, q, sql.writes(r.fk, Content(r), s));
      case Load(data) => SwapsAgree(sql, r, q, data);
      case LoadChunk(ch) =>
        FeedAlike(r.loading, q.loading, ch);
        var (loading, done) := Feed(r.loading, ch);
        SameContent(r, loading);
        SameContent(q, Feed(q.loading, ch).0);
        if done.Some? {
          SwapsAgree(sql, r.(loading := loading), q.(loading := Feed(q.loading, ch).0), done.value);
        }
      case _ =>
    }
  }

  lemma SameContent(r: Replica, loading: map<string, Partial>)
    ensures Content(r.(loading := loading)) == Content(r)
  {
  }

  /** How a database is split between its file and its WAL does not matter to replay, nor does
      the foreign-key setting as long as no statements are executed. */
  lemma {:induction false} ReplayAgrees(sql: Sqlite, r: Replica, q: Replica, log: map<nat, LogEntry>, lo: nat, hi: nat)
    requires SameNode(r, q) && Present(log, lo, hi) && (r.fk == q.fk || NoneRuns(log, lo, hi))
    ensures SameNode(Replay(sql, r, log, lo, hi), Replay(sql, q, log, lo, hi))
    decreases hi
  {
    hide SameNode, Step;
    if lo < hi {
      ReplayAgrees(sql, r, q, log, lo, hi - 1);
      StepAgrees(sql, Replay(sql, r, log, lo, hi - 1), Replay(sql, q, log, lo, hi - 1), log[hi - 1]);
    }
  }

  /** Nothing of an earlier recovery lies about that would show through. */
  predicate CleanScratch(snaps: seq<Snap>, scratch: Option<Pages>, wal: Pages) {
    if snaps != [] then forall p :: p in wal ==> p in snaps[0].db && snaps[0].db[p] == wal[p]
    else scratch.Some? ==> scratch.value == map[] && wal == map[]
  }

  lemma CleanIff(snaps: seq<Snap>, scratch: Option<Pages>, wal: Pages)
    ensures CleanScratch(snaps, scratch, wal) <==> Content(Opened(snaps, scratch, wal)) == LatestSnap(snaps).db
  {
    var c, db := Content(Opened(snaps, scratch, wal)), LatestSnap(snaps).db;
    if snaps != [] && c == db {
      forall p | p in wal ensures p in db && db[p] == wal[p] { assert c[p] == wal[p]; }
    }
    if snaps == [] && scratch.Some? && c == db {
      assert scratch.value.Keys <= c.Keys && wal.Keys <= c.Keys;
      assert scratch.value == map[] && wal == map[];
    }
  }

  /** After the recovery the node stands for what it stood for, with the log emptied or not. */
  ghost predicate Preserved(sql: Sqlite, fk: bool, snaps: seq<Snap>, scratch: Option<Pages>, wal: Pages,
                            log: map<nat, LogEntry>, last: nat)
    requires Complete(snaps, log, last)
  {
    var s := NewSnap(sql, Opened(snaps, scratch, wal), snaps, log, last);
    Stands(sql, fk, [s] + snaps, map[], 0) == Stands(sql, fk, snaps, log, last) &&
    Stands(sql, fk, [s] + snaps, log, last) == Stands(sql, fk, snaps, log, last)
  }

  lemma SavedMeansSame(sql: Sqlite, snaps: seq<Snap>, scratch: Option<Pages>, wal: Pages, log: map<nat, LogEntry>,
                       last: nat)
    requires Complete(snaps, log, last) && CleanScratch(snaps, scratch, wal)
    ensures var now := [NewSnap(sql, Opened(snaps, scratch, wal), snaps, log, last)] + snaps;
            SameMeaning(sql, now, log, last, snaps, log, last) && SameMeaning(sql, now, map[], 0, snaps, log, last)
  {
    CleanPreserves(sql, false, snaps, scratch, wal, log, last);
    if NoneRuns(log, LatestSnap(snaps).index + 1, last + 1) {
      CleanPreserves(sql, true, snaps, scratch, wal, log, last);
    }
    hide NoneRuns, CleanScratch, Opened, Replay;
  }

  /** An SQLite that never loads anything, and whose statements write `v` to page 0, if `on`
      and foreign keys are enforced, and else nothing. */
  function Marker(on: bool, v: nat): Sqlite {
    Sqlite((fk: bool, db: Pages, s: nat) => if fk && on then map[0 := v] else map[], (d: seq<byte>) => None)
  }

  lemma {:induction false} MarkerReplay(on: bool, v: nat, r: Replica, log: map<nat, LogEntry>, lo: nat, hi: nat)
    requires Present(log, lo, hi)
    ensures Content(Replay(Marker(on, v), r, log, lo, hi)) ==
            if on && r.fk && !NoneRuns(log, lo, hi) then Content(r)[0 := v] else Content(r)
    decreases hi
  {
    if lo < hi {
      MarkerReplay(on, v, r, log, lo, hi - 1);
      MarkerStep(on, v, Replay(Marker(on, v), r, log, lo, hi - 1), log[hi - 1]);
      assert NoneRuns(log, lo, hi) <==> NoneRuns(log, lo, hi - 1) && !Runs(log[hi - 1]);
    } else {
      assert NoneRuns(log, lo, hi);
    }
  }

  lemma MarkerStep(on: bool, v: nat, r: Replica, e: LogEntry)
    ensures Content(Step(Marker(on, v), r, e)) == if on && r.fk && Runs(e) then Content(r)[0 := v] else Content(r)
  {
    hide Feed, SwapIn, Content, Marker;
    if e.command.Some? {
      match e.command.value
      case Execute(s) => MarkerWrites(on, v, r, s);
      case Load(data) => MarkerLoads(on, v, r, data);
      case LoadChunk(ch) =>
        var (loading, done) := Feed(r.loading, ch);
        SameContent(r, loading);
        if done.Some? { MarkerLoads(on, v, r.(loading := loading), done.value); }
      case _ =>
    }
  }

  lemma MarkerLoads(on: bool, v: nat, r: Replica, data: seq<byte>)
    ensures SwapIn(Marker(on, v), r, data) == r
  {
  }

  lemma MarkerWrites(on: bool, v: nat, r: Replica, s: nat)
    ensures Content(r.(wal := r.wal + Marker(on, v).writes(r.fk, Content(r), s))) ==
            if on && r.fk then Content(r)[0 := v] else Content(r)
  {
    var w: Pages := if r.fk && on then map[0 := v] else map[];
    LayersAssociate(r.file, r.wal, w);
  }

  /** Recovery preserves what the node stands for, whatever SQLite does, if and only if nothing of
      an earlier attempt shows through and either the node does not enforce foreign keys or no
      statements were executed after the snapshot. */
  lemma RecoveryPreservesIff(fk: bool, snaps: seq<Snap>, scratch: Option<Pages>, wal: Pages,
                             log: map<nat, LogEntry>, last: nat)
    requires Complete(snaps, log, last)
    ensures (forall sql :: Preserved(sql, fk, snaps, scratch, wal, log, last)) <==>
            CleanScratch(snaps, scratch, wal) && (!fk || NoneRuns(log, LatestSnap(snaps).index + 1, last + 1))
  {
    if CleanScratch(snaps, scratch, wal) && (!fk || NoneRuns(log, LatestSnap(snaps).index + 1, last + 1)) {
      forall sql ensures Preserved(sql, fk, snaps, scratch, wal, log, last) {
        CleanPreserves(sql, fk, snaps, scratch, wal, log, last);
      }
    } else {
      var sql := Unfaithful(fk, snaps, scratch, wal, log, last);
    }
  }

  lemma CleanPreserves(sql: Sqlite, fk: bool, snaps: seq<Snap>, scratch: Option<Pages>, wal: Pages,
                       log: map<nat, LogEntry>, last: nat)
    requires Complete(snaps, log, last) && CleanScratch(snaps, scratch, wal)
    requires !fk || NoneRuns(log, LatestSnap(snaps).index + 1, last + 1)
    ensures Preserved(sql, fk, snaps, scratch, wal, log, last)
  {
    CleanIff(snaps, scratch, wal);
    var start, s := Opened(snaps, scratch, wal), LatestSnap(snaps);
    var base := Replica(s.db, map[], fk, map[]);
    assert Content(base) == s.db;
    if s.index < last { ReplayAgrees(sql, start, base, log, s.index + 1, last + 1); }
  }

  /** What the marker leaves of a snapshot, on the node itself and in a recovery. */
  lemma MarkerOutcome(on: bool, v: nat, fk: bool, snaps: seq<Snap>, scratch: Option<Pages>, wal: Pages,
                      log: map<nat, LogEntry>, last: nat)
    requires Complete(snaps, log, last)
    ensures var s := LatestSnap(snaps);
            Stands(Marker(on, v), fk, snaps, log, last).db ==
              (if on && fk && !NoneRuns(log, s.index + 1, last + 1) then s.db[0 := v] else s.db) &&
            NewSnap(Marker(on, v), Opened(snaps, scratch, wal), snaps, log, last).db ==
              Content(Opened(snaps, scratch, wal))
  {
    hide Replay, Marker;
    var s := LatestSnap(snaps);
    assert Content(Replica(s.db, map[], fk, map[])) == s.db;
    if s.index < last {
      MarkerReplay(on, v, Opened(snaps, scratch, wal), log, s.index + 1, last + 1);
      MarkerReplay(on, v, Replica(s.db, map[], fk, map[]), log, s.index + 1, last + 1);
    } else {
      assert NoneRuns(log, s.index + 1, last + 1);
    }
  }

  /** Otherwise some SQLite shows the difference. */
  lemma Unfaithful(fk: bool, snaps: seq<Snap>, scratch: Option<Pages>, wal: Pages,
                   log: map<nat, LogEntry>, last: nat) returns (sql: Sqlite)
    requires Complete(snaps, log, last)
    requires !(CleanScratch(snaps, scratch, wal) && (!fk || NoneRuns(log, LatestSnap(snaps).index + 1, last + 1)))
    ensures !Preserved(sql, fk, snaps, scratch, wal, log, last)
  {
    CleanIff(snaps, scratch, wal);
    hide Replay, Marker, CleanScratch, NoneRuns, Opened, Content;
    var s, on := LatestSnap(snaps), CleanScratch(snaps, scratch, wal);
    var v := if 0 in s.db then s.db[0] + 1 else 0;
    assert s.db[0 := v][0] == v;
    sql := Marker(on, v);
    MarkerOutcome(on, v, fk, snaps, scratch, wal, log, last);
  }

  /** A database with foreign keys: page 0 a parent row, page 1 a child that goes with it. */
  const CASCADING := Sqlite((fk: bool, db: Pages, s: nat) => if fk then map[0 := 0, 1 := 0] else map[0 := 0],
                            (d: seq<byte>) => None)

  /** A statement that deletes the parent: the node deletes the child as well, recovery does not. */
  lemma ForeignKeysNotEnforced()
    ensures var snaps := [Snap(1, 1, map[0 := 7, 1 := 7])];
            var log := map[2 := LogEntry(1, Some(Execute(0)))];
            CleanScratch(snaps, None, map[]) && Complete(snaps, log, 2) &&
            Stands(CASCADING, true, snaps, log, 2).db == map[0 := 0, 1 := 0] &&
            NewSnap(CASCADING, Opened(snaps, None, map[]), snaps, log, 2).db == map[0 := 0, 1 := 7]
  {
    var e := LogEntry(1, Some(Execute(0)));
    hide Step, Content;
    assert map[2 := e][2] == e;
    OneEntryAt(CASCADING, Replica(map[0 := 7, 1 := 7], map[], true, map[]), map[2 := e], 2);
    OneEntryAt(CASCADING, Replica(map[0 := 7, 1 := 7], map[], false, map[]), map[2 := e], 2);
    Cascades(true);
    Cascades(false);
  }

  lemma Cascades(fk: bool)
    ensures Content(Step(CASCADING, Replica(map[0 := 7, 1 := 7], map[], fk, map[]), LogEntry(1, Some(Execute(0))))) ==
            map[0 := 0, 1 := if fk then 0 else 7]
  {
  }

  lemma OneEntryAt(sql: Sqlite, r: Replica, log: map<nat, LogEntry>, i: nat)
    requires i in log
    ensures Replay(sql, r, log, i, i + 1) == Step(sql, r, log[i])
  {
    assert Replay(sql, r, log, i, i) == r;
  }

  // ------------------------------------------------- attempts that fail

  /** Statements that add to a counter on page 0. */
  const COUNTING := Sqlite((fk: bool, db: Pages, s: nat) => map[0 := (if 0 in db then db[0] else 0) + s],
                           (d: seq<byte>) => None)

  lemma Counts(r: Replica, s: nat, t: nat)
    requires 0 in Content(r)
    ensures Step(COUNTING, r, LogEntry(t, Some(Execute(s)))).wal == r.wal + map[0 := Content(r)[0] + s]
  {
  }

  /** An attempt that stops halfway leaves its WAL behind, and the next one applies the
      same entries on top of it: here a counter is raised twice by one log entry. */
  lemma RetryAppliesTwice()
    ensures var snaps := [Snap(1, 1, map[0 := 10])];
            var torn := map[2 := LogEntry(1, Some(Execute(5)))];
            var whole := torn[3 := LogEntry(1, None)];
            var r := Replay(COUNTING, Opened(snaps, None, map[]), torn, 2, 3);
            Stopped(COUNTING, Opened(snaps, None, map[]), snaps, torn, 3, r, 3) && Complete(snaps, whole, 3) &&
            Stands(COUNTING, false, snaps, whole, 3).db == map[0 := 15] &&
            NewSnap(COUNTING, Opened(snaps, None, r.wal), snaps, whole, 3).db == map[0 := 20]
  {
    hide Step;
    var torn := map[2 := LogEntry(1, Some(Execute(5)))];
    var whole := torn[3 := LogEntry(1, None)];
    var clean := Replica(map[0 := 10], map[], false, map[]);
    var r := Replay(COUNTING, clean, torn, 2, 3);
    assert Content(clean)[0] == 10;
    assert r == Step(COUNTING, Replay(COUNTING, clean, torn, 2, 2), torn[2]);
    Counts(clean, 5, 1);
    assert r.wal == map[0 := 15];
    var dirty := Replica(map[0 := 10], r.wal, false, map[]);
    assert Content(dirty)[0] == 15;
    Counts(dirty, 5, 1);
    TwoSteps(clean, whole);
    TwoSteps(dirty, whole);
  }

  lemma TwoSteps(r: Replica, log: map<nat, LogEntry>)
    requires log == map[2 := LogEntry(1, Some(Execute(5))), 3 := LogEntry(1, None)]
    requires r.file == map[0 := 10] && r.wal.Keys <= {0}
    ensures Content(Replay(COUNTING, r, log, 2, 4)) == map[0 := Content(r)[0] + 5]
  {
    assert 0 in Content(r);
    var q := Step(COUNTING, r, log[2]);
    assert Replay(COUNTING, r, log, 2, 3) == Step(COUNTING, Replay(COUNTING, r, log, 2, 2), log[2]) == q;
    assert Replay(COUNTING, r, log, 2, 4) == Step(COUNTING, q, log[3]) == q;
    Counts(r, 5, 1);
  }

  // ------------------------------------------------- chunked loads in progress

  /** The node as it comes up after its database was saved: chunked loads in progress are not
      part of a snapshot. */
  function Reborn(live: Replica): Replica { Replica(Content(live), map[], live.fk, map[]) }

  ghost predicate Continues(sql: Sqlite, live: Replica, log: map<nat, LogEntry>, lo: nat, hi: nat) {
    Present(log, lo, hi) ==>
      Content(Replay(sql, Reborn(live), log, lo, hi)) == Content(Replay(sql, live, log, lo, hi))
  }

  predicate AllInert(loading: map<string, Partial>) {
    forall s :: s in loading ==> Inert(s, loading[s])
  }

  /** The recovered node continues as the live one, whatever SQLite does and whatever the log
      holds from now on, if and only if no chunked load in progress has received anything. */
  lemma LoadsContinueIff(live: Replica)
    ensures (forall sql, log, lo, hi :: Continues(sql, live, log, lo, hi)) <==> AllInert(live.loading)
  {
    if AllInert(live.loading) {
      forall sql, log, lo, hi ensures Continues(sql, live, log, lo, hi) {
        if Present(log, lo, hi) { InertContinues(sql, live, log, lo, hi); }
      }
    } else {
      var s :| s in live.loading && !Inert(s, live.loading[s]);
      var sql, log := OpenLoadsAreLost(live, s);
      assert !Continues(sql, live, log, 0, 1);
    }
  }

  lemma InertContinues(sql: Sqlite, live: Replica, log: map<nat, LogEntry>, lo: nat, hi: nat)
    requires AllInert(live.loading) && Present(log, lo, hi)
    ensures Content(Replay(sql, Reborn(live), log, lo, hi)) == Content(Replay(sql, live, log, lo, hi))
  {
    assert Content(Reborn(live)) == Content(live);
    assert Alike(Reborn(live).loading, live.loading);
    ReplayAgrees(sql, Reborn(live), live, log, lo, hi);
  }

  /** A chunk without data that ends its stream. */
  function Ending(s: string, n: int): LogEntry {
    LogEntry(0, Some(LoadChunk(Chunk(s, n, true, Gzip([])))))
  }

  /** An SQLite that takes exactly one file for a database. */
  function Picky(only: seq<byte>, db: Pages): Sqlite {
    Sqlite((fk: bool, db: Pages, s: nat) => map[], (d: seq<byte>) => if d == only then Some(db) else None)
  }

  lemma PickyStep(only: seq<byte>, db: Pages, r: Replica, s: string, n: int)
    ensures Content(Step(Picky(only, db), r, Ending(s, n))) ==
            if Feed(r.loading, Chunk(s, n, true, Gzip([]))).1 == Some(only) then db else Content(r)
  {
    hide Feed;
    assert db + map[] == db;
  }

  lemma EndingFeeds(ds: map<string, Partial>, s: string, n: int)
    ensures var p := Under(ds, s);
            Feed(ds, Chunk(s, n, true, Gzip([]))).1 ==
            if (p.stream == "" || p.stream == s) && n == p.seqNum + 1 then Some(p.file) else None
  {
    var p := Under(ds, s);
    assert p.file + [] == p.file;
  }

  function Changed(db: Pages): (r: Pages)
    ensures r != db
  {
    assert db[0 := if 0 in db then db[0] + 1 else 0][0] == if 0 in db then db[0] + 1 else 0;
    db[0 := if 0 in db then db[0] + 1 else 0]
  }

  /** A load that has received something, or a stranger's chunk, parts the two nodes with one more entry. */
  lemma OpenLoadsAreLost(live: Replica, s: string) returns (sql: Sqlite, log: map<nat, LogEntry>)
    requires s in live.loading && !Inert(s, live.loading[s])
    ensures Present(log, 0, 1) && log.Keys == {0}
    ensures Content(Replay(sql, Reborn(live), log, 0, 1)) != Content(Replay(sql, live, log, 0, 1))
  {
    var p, db := live.loading[s], Content(live);
    assert Content(Reborn(live)) == db;
    hide Feed, Step, Replay, Content, Picky, Changed;
    var own := p.stream == "" || p.stream == s;
    var only := if own then p.file else [];
    var n := if own then p.seqNum + 1 else 1;
    EndingFeeds(live.loading, s, n);
    EndingFeeds(map[], s, n);
    sql, log := Picky(only, Changed(db)), map[0 := Ending(s, n)];
    OneEntryAt(sql, live, log, 0);
    OneEntryAt(sql, Reborn(live), log, 0);
    PickyStep(only, Changed(db), live, s, n);
    PickyStep(only, Changed(db), Reborn(live), s, n);
  }
}
